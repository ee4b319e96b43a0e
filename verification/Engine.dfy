/** The engine as an object over an adapter: every call reads, decides branch by branch, and
    writes through the adapter's transactions. What the calls guarantee is proved about the
    functions they are shown to compute. */
module Engines {
  import opened Documents
  import opened Hashing
  import opened Store
  import opened Plans
  import opened Operations
  import opened Protocol
  import opened Branches
  import opened Reviews
  import opened Adapters
  import Bulk
  import Previews
  import Replay
  import Restores
  import Statuses

  class Engine {
    const adapter: Adapter
    const p: Project := adapter.p

    constructor (adapter: Adapter)
      ensures this.adapter == adapter
    {
      this.adapter := adapter;
    }

    ghost function Snap(): State
      reads adapter
    {
      adapter.Snap()
    }

    // ----- one record -----

    method Write(it: Item) returns (out: Outcome)
      modifies adapter
      ensures (Snap(), out) == Perform(p, old(Snap()), Ready(it))
    {
      hide Apply;
      var r := adapter.ApplyOnce(it);
      match r
      case Ok(seqNo) => out := Written(seqNo, it.entry.oid);
      case Err(e) => out := Raised(e);
    }

    method Commit(ref: Ref, doc: Doc, allowSecret: bool, now: Time) returns (out: Outcome)
      modifies adapter
      ensures (Snap(), out) == Operate(p, old(Snap()), ref, WantCommit(doc, allowSecret), now, Null)
    {
      hide HashDoc, Apply, GetHead;
      var live := adapter.GetRecord(ref);
      if live == None {
        return Raised(NoSuchConfig);
      }
      var head := adapter.ReadHead(ref);
      var expectedHead, expectedLive := OidOf(head), p.Hash(ref, live.value);
      if expectedLive == None {
        return Raised(Unhashable);
      }
      if head.Some? && expectedLive != expectedHead {
        return Drift(expectedLive.value, expectedHead.value);
      }
      var newOid := p.Hash(ref, doc);
      if newOid == None {
        return Raised(Unhashable);
      }
      if head.Some? && newOid == expectedHead {
        return NoChange;
      }
      if SecretStops(p, ref, doc, allowSecret) {
        return Raised(SecretBlocked);
      }
      var entry := MakeEntry(p, ref, doc, expectedHead, now, Op.Commit);
      if entry == None {
        return Raised(Unhashable);
      }
      out := Write(Item(ref, Some(doc), entry.value, expectedHead, expectedLive, false, Null));
    }

    method Adopt(ref: Ref, allowSecret: bool, now: Time) returns (out: Outcome)
      modifies adapter
      ensures (Snap(), out) == Operate(p, old(Snap()), ref, WantAdopt(allowSecret), now, Null)
    {
      hide HashDoc, Apply, GetHead;
      var live := adapter.GetRecord(ref);
      if live == None {
        return Raised(NoSuchConfig);
      }
      var liveOid := p.Hash(ref, live.value);
      if liveOid == None {
        return Raised(Unhashable);
      }
      var head := adapter.ReadHead(ref);
      if head.Some? && OidOf(head) == liveOid {
        return NoChange;
      }
      if SecretStops(p, ref, live.value, allowSecret) {
        return Raised(SecretBlocked);
      }
      var entry := MakeEntry(p, ref, live.value, OidOf(head), now, Op.Adopt);
      if entry == None {
        return Raised(Unhashable);
      }
      out := Write(Item(ref, None, entry.value, OidOf(head), None, false, Null));
    }

    method ImportRecord(ref: Ref, allowSecret: bool, now: Time) returns (out: Outcome)
      modifies adapter
      ensures (Snap(), out) == Operate(p, old(Snap()), ref, WantImport(allowSecret), now, Null)
    {
      hide HashDoc, Apply, GetHead;
      var head := adapter.ReadHead(ref);
      if head.Some? {
        return NoChange;
      }
      var live := adapter.GetRecord(ref);
      if live == None {
        return NoChange;
      }
      if SecretStops(p, ref, live.value, allowSecret) {
        return Raised(SecretBlocked);
      }
      var entry := MakeEntry(p, ref, live.value, None, now, Op.Import);
      if entry == None {
        return Raised(Unhashable);
      }
      out := Write(Item(ref, None, entry.value, None, None, false, Null));
    }

    method RestoreOne(ref: Ref, target: Doc, seedMissing: bool, now: Time, freshId: Value) returns (out: Outcome)
      modifies adapter
      ensures (Snap(), out) == Operate(p, old(Snap()), ref, WantRestore(target, seedMissing), now, freshId)
    {
      hide HashDoc, Apply, GetHead;
      var live := adapter.GetRecord(ref);
      if live == None && !seedMissing {
        return Raised(NoSuchConfig);
      }
      var head := adapter.ReadHead(ref);
      var expectedLive := None;
      if live.Some? {
        expectedLive := p.Hash(ref, live.value);
        if expectedLive == None {
          return Raised(Unhashable);
        }
        if head.Some? && expectedLive != OidOf(head) {
          return Drift(expectedLive.value, OidOf(head).value);
        }
      }
      var entry := MakeEntry(p, ref, target, OidOf(head), now, Op.Restore);
      if entry == None {
        return Raised(Unhashable);
      }
      out := Write(Item(ref, Some(target), entry.value, OidOf(head), expectedLive, seedMissing, freshId));
    }

    // ----- many records, one intent -----

    method CommitPlan(change: Bulk.Change, allowSecret: bool, now: Time) returns (plan: Decision)
      ensures plan == Bulk.PlanOf(p, Snap(), change, allowSecret, now)
    {
      hide HashDoc, GetHead;
      var ref := change.ref;
      var live := adapter.GetRecord(ref);
      if live == None {
        return Raise(NoSuchConfig);
      }
      var head := adapter.ReadHead(ref);
      var expectedHead, expectedLive := OidOf(head), p.Hash(ref, live.value);
      if expectedLive == None {
        return Raise(Unhashable);
      }
      if head.Some? && expectedLive != expectedHead {
        return ChangedOutside(expectedLive.value, expectedHead.value);
      }
      var newOid := p.Hash(ref, change.doc);
      if newOid == None {
        return Raise(Unhashable);
      }
      if head.Some? && newOid == expectedHead {
        return Nothing;
      }
      if SecretStops(p, ref, change.doc, allowSecret) {
        return Raise(SecretBlocked);
      }
      var entry := MakeEntry(p, ref, change.doc, expectedHead, now, Op.Commit);
      if entry == None {
        return Raise(Unhashable);
      }
      return Ready(Item(ref, Some(change.doc), entry.value, expectedHead, expectedLive, false, Null));
    }

    method CommitMany(changes: seq<Bulk.Change>, allowSecret: bool, clock: nat -> Time, signals: seq<Bulk.Signal>)
      returns (report: Bulk.Report)
      requires |signals| == |changes|
      modifies adapter
      ensures (Snap(), report) == Bulk.CommitMany(p, old(Snap()), changes, allowSecret, clock, signals)
    {
      hide Apply, DecideCommit, Bulk.PlanOf, Bulk.FirstError, Bulk.Blockers, Bulk.RunPlans;
      if changes == [] {
        return Bulk.Aborted(Refused("bulk commit needs at least one item"));
      }
      var error, blocked, plans := PlanMany(changes, allowSecret, clock);
      if error.Some? {
        return Bulk.Aborted(error.value);
      }
      if blocked != [] {
        return Bulk.Blocked(blocked);
      }
      report := RunPlans(changes, plans, signals);
    }

    /** Planning every change before anything is written. */
    method PlanMany(changes: seq<Bulk.Change>, allowSecret: bool, clock: nat -> Time)
      returns (error: Option<Error>, blocked: seq<Ref>, plans: seq<Decision>)
      ensures var all := Bulk.PlansOf(p, Snap(), changes, allowSecret, clock);
              && error == Bulk.FirstError(changes, all, {})
              && (error == None ==> blocked == Bulk.Blockers(changes, all))
              && (error == None && blocked == [] ==> plans == all)
    {
      hide DecideCommit, Bulk.PlanOf, Bulk.Blocks, Planning;
      PlanEnds(changes, Bulk.PlansOf(p, Snap(), changes, allowSecret, clock));
      ghost var all := Bulk.PlansOf(p, Snap(), changes, allowSecret, clock);
      var seen: set<Ref> := {};
      error, blocked, plans := None, [], [];
      for i := 0 to |changes|
        invariant error == None
        invariant Planning(changes, all, i, seen, blocked)
        invariant blocked == [] ==> plans == all[..i]
      {
        var ref := changes[i].ref;
        PlanNext(changes, all, i, seen, blocked);
        if ref in seen {
          error := Some(Refused("duplicate record in bulk commit"));
          return;
        }
        seen := seen + {ref};
        var plan := CommitPlan(changes[i], allowSecret, clock(i));
        if Bulk.Blocks(plan) {
          blocked := blocked + [ref];
        } else if plan.Raise? {
          error := Some(plan.error);
          return;
        } else {
          plans := plans + [plan];
        }
      }
    }

    method RunPlans(changes: seq<Bulk.Change>, plans: seq<Decision>,
                    signals: seq<Bulk.Signal>) returns (report: Bulk.Report)
      requires |plans| == |changes| == |signals|
      modifies adapter
      ensures (Snap(), report) == Bulk.RunPlans(p, old(Snap()), changes, plans, signals)
    {
      hide Apply;
      var results: seq<Ref> := [];
      ListedNone(Bulk.RunPlans(p, Snap(), changes, plans, signals));
      assert changes[0..] == changes && plans[0..] == plans && signals[0..] == signals;
      for i := 0 to |changes|
        invariant Bulk.RunPlans(p, old(Snap()), changes, plans, signals) ==
                  AfterListing(results, Bulk.RunPlans(p, Snap(), changes[i..], plans[i..], signals[i..]))
      {
        var ref, plan := changes[i].ref, plans[i];
        assert changes[i..][1..] == changes[i + 1..] && plans[i..][1..] == plans[i + 1..] &&
               signals[i..][1..] == signals[i + 1..];
        if plan.Ready? {
          assert results + [] == results;
          if signals[i] == Bulk.Cancel {
            return Bulk.Partial(true, results, [], Bulk.RefsOf(changes[i..]));
          }
          if signals[i] == Bulk.Fault {
            return Bulk.Partial(false, results, [ref], Bulk.RefsOf(changes[i + 1..]));
          }
          var r := adapter.ApplyOnce(plan.item);
          if r.Err? {
            return Bulk.Partial(false, results, [ref], Bulk.RefsOf(changes[i + 1..]));
          }
        }
        ListedAfter(results, ref, Bulk.RunPlans(p, Snap(), changes[i + 1..], plans[i + 1..], signals[i + 1..]));
        results := results + [ref];
      }
      report := Bulk.Complete(results);
    }

    method CommitPreview(change: Bulk.Change, allowSecret: bool) returns (preview: Previews.Preview)
      ensures preview == Previews.PreviewOf(p, Snap(), change, allowSecret)
    {
      hide HashDoc, GetHead, Replay.DiffValues;
      var ref, c := change.ref, p.coll(change.ref.collection);
      var live := adapter.GetRecord(ref);
      if live == None {
        return Previews.Absent;
      }
      var head := adapter.ReadHead(ref);
      var expectedHead, expectedLive := OidOf(head), p.Hash(ref, live.value);
      if expectedLive == None {
        return Previews.Stopped(Unhashable);
      }
      if head.Some? && expectedLive != expectedHead {
        return Previews.Drifted(expectedLive.value, expectedHead.value);
      }
      var newOid := p.Hash(ref, change.doc);
      if newOid == None {
        return Previews.Stopped(Unhashable);
      }
      if head.Some? && newOid == expectedHead {
        return Previews.Noop(newOid.value);
      }
      if SecretStops(p, ref, change.doc, allowSecret) {
        return Previews.Stopped(SecretBlocked);
      }
      var before := StripForHash(c, live.value);
      var after := StripForHash(c, change.doc);
      var changes := Replay.DiffValuesLoop(Obj(before), Obj(after), "");
      return Previews.WouldCommit(changes, newOid.value, expectedHead);
    }

    /** The dry run of a bulk commit, with its counters and its list; it never allows secrets. */
    method BulkCommitPreview(changes: seq<Bulk.Change>) returns (r: Result<Previews.DryRun>)
      ensures r == Previews.PreviewAll(p, Snap(), changes, false, Previews.NOTHING_YET)
    {
      hide Previews.PreviewOf;
      var wouldChange, drift, noop := 0, 0, 0;
      var results: seq<Previews.Line> := [];
      assert changes[0..] == changes;
      for i := 0 to |changes|
        invariant wouldChange >= 0 && drift >= 0 && noop >= 0
        invariant Previews.PreviewAll(p, Snap(), changes, false, Previews.NOTHING_YET) ==
                  Previews.PreviewAll(p, Snap(), changes[i..], false,
                                      Previews.DryRun(Previews.Summary(i, wouldChange, drift, noop), results))
      {
        assert changes[i..][1..] == changes[i + 1..];
        var preview := CommitPreview(changes[i], false);
        match preview {
          case Stopped(e) => return Err(e);
          case WouldCommit(_, _, _) => wouldChange := wouldChange + 1;
          case Drifted(_, _) => drift := drift + 1;
          case Noop(_) => noop := noop + 1;
          case Absent =>
        }
        results := results + [Previews.Line(changes[i].ref, preview)];
      }
      return Ok(Previews.DryRun(Previews.Summary(|changes|, wouldChange, drift, noop), results));
    }

    // ----- restoring many records -----

    method RestoreMany(targets: seq<Restores.Target>, dryRun: bool,
                       io: nat -> Restores.Io) returns (report: Restores.Report)
      modifies adapter
      ensures (Snap(), report) ==
              Restores.RestoreMany(p, old(Snap()), targets, dryRun,
                                   Answers(io, |Restores.Jobs(p, old(Snap()), targets)|))
    {
      var error, already, blocked, jobs := Preflight(targets);
      if error.Some? {
        return Restores.Failed(error.value);
      }
      if blocked != [] {
        return Restores.Blocked(blocked);
      }
      if dryRun {
        return Restores.DryRun(already, seq(|jobs|, i requires 0 <= i < |jobs| => jobs[i].target.ref));
      }
      var done, failed := RunJobs(jobs, io);
      report := if failed == [] then Restores.Restored(already, done) else Restores.Partial(already, done, failed);
    }

    /** Sorting the targets before anything is written. */
    method Preflight(targets: seq<Restores.Target>)
      returns (error: Option<Error>, already: seq<Ref>, blocked: seq<Ref>, jobs: seq<Restores.Job>)
      ensures error == if Restores.Judged(p, Snap(), targets, Restores.Unreadable) != [] then Some(Unhashable) else None
      ensures error == None ==> jobs == Restores.Jobs(p, Snap(), targets)
      ensures error == None ==> already == Restores.Judged(p, Snap(), targets, Restores.AtTarget)
      ensures error == None ==> blocked == Restores.Judged(p, Snap(), targets, Restores.Blocking)
    {
      hide HashDoc, GetHead;
      error, already, blocked, jobs := None, [], [], [];
      for i := 0 to |targets|
        invariant error == None
        invariant Sorting(p, Snap(), targets, i, already, blocked, jobs)
      {
        var t := targets[i];
        var live := adapter.GetRecord(t.ref);
        var head := adapter.ReadHead(t.ref);
        SortOne(p, Snap(), targets, i, already, blocked, jobs);
        if live == None {
          jobs := jobs + [Restores.Job(t, true)];
        } else {
          var expectedLive := p.Hash(t.ref, live.value);
          if expectedLive == None {
            error := Some(Unhashable);
            return;
          }
          if head.Some? && expectedLive != OidOf(head) {
            blocked := blocked + [t.ref];
          } else if OidOf(head) == Some(t.oid) {
            already := already + [t.ref];
          } else {
            jobs := jobs + [Restores.Job(t, false)];
          }
        }
      }
    }

    method RunJobs(jobs: seq<Restores.Job>, io: nat -> Restores.Io) returns (done: seq<Ref>, failed: seq<Ref>)
      modifies adapter
      ensures (Snap(), done, failed) == Restores.RunJobs(p, old(Snap()), jobs, Answers(io, |jobs|))
    {
      hide Operate;
      ghost var answers := Answers(io, |jobs|);
      done, failed := [], [];
      AddedNone(Restores.RunJobs(p, Snap(), jobs, answers));
      assert jobs[0..] == jobs && answers[0..] == answers;
      for i := 0 to |jobs|
        invariant Restores.RunJobs(p, old(Snap()), jobs, answers) ==
                  Added(done, failed, Restores.RunJobs(p, Snap(), jobs[i..], answers[i..]))
      {
        assert jobs[i..][1..] == jobs[i + 1..] && answers[i..][1..] == answers[i + 1..];
        var t, answer := jobs[i].target, io(i);
        var out := Raised(Unavailable);
        ghost var before := Snap();
        if !answer.fails {
          out := RestoreOne(t.ref, t.doc, jobs[i].seedMissing, answer.now, answer.freshId);
        }
        assert (Snap(), out) == Restores.RestoreOne(p, before, jobs[i], answers[i]);
        AddedOne(done, failed, out.Raised?, t.ref, Restores.RunJobs(p, Snap(), jobs[i + 1..], answers[i + 1..]));
        if out.Raised? {
          failed := failed + [t.ref];
        } else {
          done := done + [t.ref];
        }
      }
      assert jobs[|jobs|..] == [] && done + [] == done && failed + [] == failed;
    }

    // ----- restoring the system -----

    function AllRefs(): set<Ref>
      reads adapter
    {
      adapter.live.Keys + set key | key in adapter.rows :: key.ref
    }

    /** For every record that has a row valid at an instant, that row. */
    method AsOfTargets(when: Time) returns (targets: seq<Restores.Target>)
      ensures Restores.Targets(Snap(), Restores.AsOfPick(Snap(), when), targets)
    {
      hide AsOf, Picked, Restores.Targets;
      ghost var s, pick := Snap(), Restores.AsOfPick(Snap(), when);
      var refs := AllRefs();
      var left := refs;
      targets := [];
      PickNone(s, pick);
      assert refs - left == {};
      while left != {}
        invariant left <= refs
        invariant Picked(s, pick, targets, refs - left)
        decreases |left|
      {
        var ref :| ref in left;
        var best := adapter.QueryAsOf(ref, when);
        assert pick(ref) == best;
        PickOne(s, pick, targets, refs - left, ref);
        OneFewer(refs, left, ref);
        left := left - {ref};
        if best.Some? {
          var row := adapter.rows[Key(ref, best.value)];
          targets := targets + [Restores.Target(ref, row.entry.doc, row.entry.oid)];
        }
      }
      forall ref | pick(ref).Some? ensures ref in refs {
        AsOfHasRow(s, ref, when);
        assert Key(ref, pick(ref).value) in adapter.rows;
      }
      PickedAll(s, pick, targets, refs - left);
    }

    /** Every record back to what it was at an instant. */
    method RestoreSystemAsOf(when: Time, dryRun: bool, io: nat -> Restores.Io)
      returns (targets: seq<Restores.Target>, report: Restores.Report)
      modifies adapter
      ensures Restores.Targets(old(Snap()), Restores.AsOfPick(old(Snap()), when), targets)
      ensures (Snap(), report) ==
              Restores.RestoreMany(p, old(Snap()), targets, dryRun,
                                   Answers(io, |Restores.Jobs(p, old(Snap()), targets)|))
    {
      hide *;
      targets := AsOfTargets(when);
      report := RestoreMany(targets, dryRun, io);
    }

    /** The latest row of every record among the rows that carry a tag. */
    method LatestTagged(tag: string) returns (latest: map<Ref, nat>)
      ensures forall ref :: Restores.TagPick(Snap(), tag)(ref) == if ref in latest then Some(latest[ref]) else None
      ensures forall ref | ref in latest :: Key(ref, latest[ref]) in adapter.rows
    {
      var tagged := set key | key in adapter.rows && tag in adapter.rows[key].tags;
      var left := tagged;
      latest := map[];
      while left != {}
        invariant left <= tagged
        invariant forall ref | ref in latest :: Key(ref, latest[ref]) in tagged - left
        invariant forall key | key in tagged - left :: key.ref in latest && key.seqNo <= latest[key.ref]
        decreases |left|
      {
        var key :| key in left;
        left := left - {key};
        if key.ref !in latest || key.seqNo > latest[key.ref] {
          latest := latest[key.ref := key.seqNo];
        }
      }
      forall ref ensures Restores.TagPick(Snap(), tag)(ref) == if ref in latest then Some(latest[ref]) else None {
        forall k | k in Restores.Tagged(Snap(), ref, tag) ensures ref in latest && k <= latest[ref] {
          assert Key(ref, k) in tagged;
        }
        if ref in latest {
          assert Key(ref, latest[ref]) in tagged && latest[ref] in Restores.Tagged(Snap(), ref, tag);
        }
      }
    }

    /** For every record a tag covers, its latest tagged row, in record order. */
    method TagTargets(tag: string) returns (targets: seq<Restores.Target>)
      ensures Restores.Targets(Snap(), Restores.TagPick(Snap(), tag), targets)
    {
      hide Picked, Restores.Targets, Restores.TagPick, RecordOrder;
      ghost var s, pick := Snap(), Restores.TagPick(Snap(), tag);
      var latest := LatestTagged(tag);
      var order := RecordOrder(latest.Keys);
      targets := [];
      PickNone(s, pick);
      ghost var seen: set<Ref> := {};
      for i := 0 to |order|
        invariant forall j | 0 <= j < |order| :: order[j] in seen <==> j < i
        invariant Picked(s, pick, targets, seen)
      {
        var ref := order[i];
        assert ref in order && pick(ref) == Some(latest[ref]);
        PickOne(s, pick, targets, seen, ref);
        seen := seen + {ref};
        var row := adapter.rows[Key(ref, latest[ref])];
        targets := targets + [Restores.Target(ref, row.entry.doc, row.entry.oid)];
      }
      forall ref | pick(ref).Some? ensures ref in seen {
        assert ref in order;
      }
      PickedAll(s, pick, targets, seen);
    }

    /** Every record a tag covers back to its latest tagged row. */
    method RestoreSystemTag(tag: string, dryRun: bool, io: nat -> Restores.Io)
      returns (targets: seq<Restores.Target>, report: Restores.Report)
      modifies adapter
      ensures Restores.Targets(old(Snap()), Restores.TagPick(old(Snap()), tag), targets)
      ensures if targets == [] then Snap() == old(Snap()) && report == Restores.Failed(NoSuchConfig)
              else (Snap(), report) ==
                   Restores.RestoreMany(p, old(Snap()), targets, dryRun,
                                        Answers(io, |Restores.Jobs(p, old(Snap()), targets)|))
    {
      hide *;
      targets := TagTargets(tag);
      if targets == [] {
        return targets, Restores.Failed(NoSuchConfig);
      }
      report := RestoreMany(targets, dryRun, io);
    }

    /** The tag on the HEAD row of every record that has one. */
    method Tag(tag: string)
      modifies adapter
      ensures Snap() == Restores.TagHeads(old(Snap()), tag)
    {
      var refs := AllRefs();
      var left := refs;
      while left != {}
        invariant left <= refs
        invariant Snap() == TagSome(old(Snap()), refs - left, tag)
        decreases |left|
      {
        var ref :| ref in left;
        TagOne(old(Snap()), refs - left, ref, tag);
        OneFewer(refs, left, ref);
        left := left - {ref};
        var head := adapter.ReadHead(ref);
        if head.Some? {
          adapter.AddTagAt(Key(ref, head.value.seqNo), tag);
        }
      }
    }

    /** The state of every record asked for, read in any order and listed in record order. */
    method Status(refs: set<Ref>) returns (rows: Result<seq<Statuses.StatusRow>>)
      ensures rows == Statuses.Report(p, Snap(), refs)
    {
      hide HashDoc, RecordOrder, Statuses.RowOf;
      var found: map<Ref, Statuses.StatusRow> := map[];
      var left := refs;
      while left != {}
        invariant left <= refs && found.Keys == refs - left
        invariant forall ref | ref in found :: Statuses.RowOf(p, Snap(), ref) == Ok(found[ref])
        decreases |left|
      {
        var ref :| ref in left;
        var row := StatusRow(ref);
        if row.Err? {
          Statuses.OneHidesAll(p, Snap(), RecordOrder(refs), ref);
          return Err(row.error);
        }
        found := found[ref := row.value];
        left := left - {ref};
      }
      var order := RecordOrder(refs);
      Statuses.AllTold(p, Snap(), order, found);
      var listed := seq(|order|, i requires 0 <= i < |order| => found[order[i]]);
      assert listed == Statuses.RowsOf(p, Snap(), order).value;
      return Ok(listed);
    }

    method StatusRow(ref: Ref) returns (row: Result<Statuses.StatusRow>)
      ensures row == Statuses.RowOf(p, Snap(), ref)
    {
      hide HashDoc, GetHead;
      var live := adapter.GetRecord(ref);
      var head := adapter.ReadHead(ref);
      var liveOid := None;
      if live.Some? && live.value != map[] {
        liveOid := p.Hash(ref, live.value);
        if liveOid == None {
          return Err(Unhashable);
        }
      }
      var headOid := OidOf(head);
      var headSeq := if head.Some? then Some(head.value.seqNo) else None;
      var state;
      if live == None && head == None {
        state := Statuses.NotFound;
      } else if live == None {
        state := Statuses.Missing;
      } else if head == None {
        state := Statuses.New;
      } else if liveOid != headOid {
        state := Statuses.ChangedOutsideCfgit;
      } else {
        state := Statuses.Clean;
      }
      return Ok(Statuses.StatusRow(ref, state, liveOid, headOid, headSeq));
    }

    // ----- branches and pull requests -----

    method BranchCommitPlan(branch: string, change: DraftChange, allowSecret: bool) returns (plan: DraftPlan)
      ensures plan == PlanDraft(p, Snap(), branch, change, allowSecret)
    {
      hide HashDoc, GetHead, Latest;
      var ref := change.ref;
      var live := adapter.GetRecord(ref);
      if live == None {
        return DraftMissing;
      }
      var head := adapter.ReadHead(ref);
      var expectedLive := p.Hash(ref, live.value);
      if expectedLive == None {
        return DraftRaise(Unhashable);
      }
      if head.Some? && expectedLive != OidOf(head) {
        return DraftDrifted;
      }
      var tips := adapter.BranchLatestByRecord(branch);
      NoTipOutside(adapter.refs.drafts, branch, ref);
      var latest := if ref in tips then Some(tips[ref]) else None;
      var parentOid := if latest.Some? then Some(adapter.refs.drafts[latest.value].oid) else OidOf(head);
      var newOid := p.Hash(ref, change.doc);
      if newOid == None {
        return DraftRaise(Unhashable);
      }
      if newOid == parentOid {
        return DraftNoop;
      }
      if SecretStops(p, ref, change.doc, allowSecret) {
        return DraftRaise(SecretBlocked);
      }
      return DraftReady(Draft(branch, ref, newOid.value, Stored(p.coll(ref.collection), change.doc),
                              latest, OidOf(head), change.now));
    }

    /** Planning every draft; the batch stops on the first error, a duplicate record, or, once all
        are planned, on any missing or drifted record. */
    method PlanDrafts(branch: string, changes: seq<DraftChange>, allowSecret: bool)
      returns (error: Option<Error>, blocked: seq<Ref>, plans: seq<DraftPlan>)
      ensures var all := DraftPlans(p, Snap(), branch, changes, allowSecret);
              && error == DraftError(changes, all, {})
              && (error == None ==> blocked == DraftBlockers(changes, all))
              && (error.Some? || blocked != [] <==> OneRecordTwice(changes) || exists i | 0 <= i < |all| :: Stopped(all[i]))
              && (error == None && blocked == [] ==> plans == all)
    {
      hide PlanDraft, Drafting;
      ghost var all := DraftPlans(p, Snap(), branch, changes, allowSecret);
      var seen: set<Ref> := {};
      error, blocked, plans := None, [], [];
      DraftingEnds(changes, all);
      for i := 0 to |changes|
        invariant error == None
        invariant Drafting(changes, all, i, seen, blocked)
        invariant forall ref :: ref in seen <==> exists j :: 0 <= j < i && changes[j].ref == ref
        invariant forall j, k | 0 <= j < k < i :: changes[j].ref != changes[k].ref
        invariant blocked != [] <==> exists j | 0 <= j < i :: Stopped(all[j])
        invariant blocked == [] ==> plans == all[..i]
      {
        var ref := changes[i].ref;
        DraftNext(changes, all, i, seen, blocked);
        if ref in seen {
          error := Some(Refused("duplicate record in bulk branch commit"));
          return;
        }
        seen := seen + {ref};
        var plan := BranchCommitPlan(branch, changes[i], allowSecret);
        assert plan == all[i];
        if plan.DraftRaise? {
          error := Some(plan.error);
          return;
        }
        if Stopped(plan) {
          blocked := blocked + [ref];
        } else {
          plans := plans + [plan];
        }
      }
    }

    /** Storing draft commits and moving the branch to the last of them; the live documents and
        the history stay as they are. */
    method BranchCommitMany(branch: string, changes: seq<DraftChange>, allowSecret: bool)
      returns (error: Option<Error>, blocked: seq<Ref>, ids: seq<string>)
      requires forall i | 0 <= i < |changes| :: changes[i].id !in adapter.refs.drafts
      requires forall i, j | 0 <= i < j < |changes| :: changes[i].id != changes[j].id
      modifies adapter`refs
      ensures Snap() == old(Snap()).(refs := DoCommitDrafts(p, old(Snap()), branch, changes, allowSecret))
      ensures ids == DraftIds(p, old(Snap()), branch, changes, allowSecret)
      ensures branch != p.mainBranch && branch in old(adapter.refs.branches) && changes != [] ==>
                var all := DraftPlans(p, old(Snap()), branch, changes, allowSecret);
                error == DraftError(changes, all, {}) && (error == None ==> blocked == DraftBlockers(changes, all))
    {
      hide PlanDraft, PutDrafts, DraftError, DraftBlockers;
      error, blocked, ids := None, [], [];
      if branch == p.mainBranch || changes == [] {
        error := Some(Refused("bulk branch commit needs a non-main branch and at least one item"));
        return;
      }
      if branch !in adapter.refs.branches {
        error := Some(NoSuchConfig);
        return;
      }
      var plans;
      error, blocked, plans := PlanDrafts(branch, changes, allowSecret);
      if error.Some? || blocked != [] {
        return;
      }
      NoneReady(adapter.refs.drafts, changes, plans);
      ids := StoreDrafts(changes, plans);
      if ids != [] {
        adapter.refs := adapter.refs.(branches := adapter.refs.branches[branch := Branch(Some(ids[|ids| - 1]))]);
      }
    }

    method StoreDrafts(changes: seq<DraftChange>, plans: seq<DraftPlan>) returns (ids: seq<string>)
      requires |plans| == |changes|
      modifies adapter`refs
      ensures adapter.refs == old(adapter.refs).(drafts := PutDrafts(old(adapter.refs.drafts), changes, plans))
      ensures ids == ReadyIds(changes, plans)
    {
      ids := [];
      assert changes[0..] == changes && plans[0..] == plans;
      for i := 0 to |changes|
        invariant PutDrafts(adapter.refs.drafts, changes[i..], plans[i..]) ==
                  PutDrafts(old(adapter.refs.drafts), changes, plans)
        invariant adapter.refs == old(adapter.refs).(drafts := adapter.refs.drafts)
        invariant ids + ReadyIds(changes[i..], plans[i..]) == ReadyIds(changes, plans)
      {
        assert changes[i..][1..] == changes[i + 1..] && plans[i..][1..] == plans[i + 1..];
        var plan := plans[i];
        if plan.DraftReady? {
          adapter.refs := adapter.refs.(drafts := adapter.refs.drafts[changes[i].id := plan.draft]);
          ids := ids + [changes[i].id];
        }
      }
    }

    /** Opening a request over the tips a branch has now. */
    method PrCreate(id: string, head: string) returns (error: Option<Error>)
      requires id !in adapter.refs.prs
      modifies adapter`refs
      ensures Snap() == old(Snap()).(refs := DoCreatePr(p, old(adapter.refs), id, head))
      ensures error == None <==> id in adapter.refs.prs
    {
      hide FreezeNow, BranchRecords;
      if head == p.mainBranch {
        return Some(Refused("PR head must be a non-main branch"));
      }
      if head !in adapter.refs.branches {
        return Some(NoSuchConfig);
      }
      var latest := adapter.BranchLatestByRecord(head);
      if latest.Keys == {} {
        return Some(Refused("branch has no commits"));
      }
      var drafts := adapter.refs.drafts;
      var records := map ref | ref in latest :: Frozen(latest[ref], drafts[latest[ref]].oid);
      FreezesTips(drafts, head, latest, records);
      adapter.refs := adapter.refs.(prs := adapter.refs.prs[id :=
        PullRequest(Open, head, adapter.refs.branches[head].headCommit, records)]);
      return None;
    }

    method MergePlan(ref: Ref, draft: Draft, now: Time) returns (plan: Decision)
      ensures plan == DecideMerge(p, ref, Live(Snap(), ref), GetHead(Snap(), ref), draft.doc, draft.baseHead, now)
    {
      hide HashDoc, GetHead;
      var live := adapter.GetRecord(ref);
      if live == None {
        return Raise(NoSuchConfig);
      }
      var head := adapter.ReadHead(ref);
      var expectedHead, expectedLive := OidOf(head), p.Hash(ref, live.value);
      if expectedLive == None {
        return Raise(Unhashable);
      }
      if expectedHead != draft.baseHead {
        return MainMoved(expectedHead);
      }
      if head.Some? && expectedLive != expectedHead {
        return ChangedOutside(expectedLive.value, expectedHead.value);
      }
      var entry := MakeEntry(p, ref, draft.doc, expectedHead, now, Op.Merge);
      if entry == None {
        return Raise(Unhashable);
      }
      return Ready(Item(ref, Some(draft.doc), entry.value, expectedHead, expectedLive, false, Null));
    }

    /** One planned write for every record of a branch, in record order. */
    method MergePlans(branch: string, latest: map<Ref, string>, clock: nat -> Time) returns (r: Result<seq<Item>>)
      requires latest.Keys == BranchRecords(adapter.refs.drafts, branch)
      requires forall ref | ref in latest :: Latest(adapter.refs.drafts, branch, ref) == Some(latest[ref])
      ensures r == MergeItems(p, Snap(), branch, MergeOrder(adapter.refs.drafts, branch), clock, 0)
    {
      hide DecideMerge, Latest, RecordOrder, MergeItems, Headed;
      var order := RecordOrder(latest.Keys);
      var items: seq<Item> := [];
      assert order[0..] == order;
      HeadedNone(MergeItems(p, Snap(), branch, order, clock, 0));
      for i := 0 to |order|
        invariant MergeItems(p, Snap(), branch, order, clock, 0) ==
                  Headed(items, MergeItems(p, Snap(), branch, order[i..], clock, i))
      {
        assert order[i] in order;
        var plan := MergePlan(order[i], adapter.refs.drafts[latest[order[i]]], clock(i));
        assert plan == MergeDecision(p, Snap(), branch, order[i], clock(i));
        HeadedStep(p, Snap(), branch, order, clock, i, items);
        match plan
        case Ready(it) => items := items + [it];
        case Raise(e) => return Err(e);
        case ChangedOutside(_, _) => return Err(Refused("changed outside cfgit"));
        case MainMoved(_) => return Err(Refused("main moved since branch commit"));
        case Nothing => return Err(Refused("nothing"));
      }
      HeadedAll(p, Snap(), branch, order, clock, items);
      return Ok(items);
    }

    /** Merging a request: every record and the request in one transaction. The answer is the new HEAD
        number of every record, in record order. */
    method PrMerge(id: string, clock: nat -> Time) returns (r: Result<seq<nat>>)
      modifies adapter
      ensures Snap() == DoMerge(p, old(Snap()), id, clock)
      ensures var plan := PlanMerge(p, old(Snap()), id, clock);
              r.Ok? <==> plan.Ok? && ApplyMany(p, old(Snap()), plan.value).Ok?
      ensures r.Ok? ==>
                var order := MergeOrder(old(adapter.refs.drafts), old(adapter.refs.prs)[id].headBranch);
                |r.value| == |order| && forall i | 0 <= i < |order| ::
                  r.value[i] == HeadSeq(Snap(), order[i]) == HeadSeq(old(Snap()), order[i]) + 1
    {
      hide MergeItems, MergeOrder, Latest, ApplyMany, BranchRecords, NamesNewRows;
      var refs := adapter.refs;
      if id !in refs.prs {
        return Err(NoSuchConfig);
      }
      var pr := refs.prs[id];
      if pr.status != Open {
        return Err(Refused("PR is not open"));
      }
      if pr.headBranch == p.mainBranch {
        return Err(Refused("PR head branch is main"));
      }
      if pr.headBranch !in refs.branches {
        return Err(NoSuchConfig);
      }
      if refs.branches[pr.headBranch].headCommit != pr.headCommit {
        return Err(Refused("head branch moved"));
      }
      var latest := adapter.BranchLatestByRecord(pr.headBranch);
      if latest.Keys == {} {
        return Err(Refused("no records to merge"));
      }
      var plans := MergePlans(pr.headBranch, latest, clock);
      if plans.Err? {
        return Err(plans.error);
      }
      MergeIsNotEmpty(p, Snap(), pr.headBranch, clock);
      MergeIsInOrder(p, Snap(), pr.headBranch, clock);
      r := adapter.ApplyAll(plans.value, Some((id, pr.(status := Merged))));
    }
  }

  // ----- loops, and the functions they compute -----

  /** A bulk report whose results come after `done`. */
  function AfterListing(done: seq<Ref>, rest: (State, Bulk.Report)): (State, Bulk.Report)
  {
    match rest.1
    case Complete(results) => (rest.0, Bulk.Complete(done + results))
    case Partial(c, results, failed, pending) => (rest.0, Bulk.Partial(c, done + results, failed, pending))
    case other => (rest.0, other)
  }

  lemma ListedNone(rest: (State, Bulk.Report))
    ensures AfterListing([], rest) == rest
  {
    match rest.1
    case Complete(results) => assert [] + results == results;
    case Partial(_, results, _, _) => assert [] + results == results;
    case _ =>
  }

  lemma ListedAfter(done: seq<Ref>, ref: Ref, rest: (State, Bulk.Report))
    ensures AfterListing(done, Bulk.After(ref, rest)) == AfterListing(done + [ref], rest)
  {
    match rest.1
    case Complete(results) => assert done + ([ref] + results) == done + [ref] + results;
    case Partial(_, results, _, _) => assert done + ([ref] + results) == done + [ref] + results;
    case _ =>
  }

  ghost predicate Planning(changes: seq<Bulk.Change>, all: seq<Decision>, i: nat, seen: set<Ref>, blocked: seq<Ref>)
    requires |all| == |changes| && i <= |changes|
  {
    && Bulk.FirstError(changes, all, {}) == Bulk.FirstError(changes[i..], all[i..], seen)
    && Bulk.Blockers(changes, all) == blocked + Bulk.Blockers(changes[i..], all[i..])
  }

  lemma {:induction false} PlanEnds(changes: seq<Bulk.Change>, all: seq<Decision>)
    requires |all| == |changes|
    ensures Planning(changes, all, 0, {}, [])
    ensures forall seen, blocked | Planning(changes, all, |changes|, seen, blocked) ::
              Bulk.FirstError(changes, all, {}) == None && Bulk.Blockers(changes, all) == blocked
  {
    assert changes[0..] == changes && all[0..] == all;
    assert [] + Bulk.Blockers(changes, all) == Bulk.Blockers(changes, all);
    assert forall blocked: seq<Ref> :: blocked + [] == blocked;
  }

  lemma {:induction false} PlanNext(changes: seq<Bulk.Change>, all: seq<Decision>, i: nat, seen: set<Ref>,
                                    blocked: seq<Ref>)
    requires |all| == |changes| && i < |changes| && Planning(changes, all, i, seen, blocked)
    ensures var ref := changes[i].ref;
            if ref in seen then Bulk.FirstError(changes, all, {}) == Some(Refused("duplicate record in bulk commit"))
            else if all[i].Raise? && !Bulk.Blocks(all[i]) then Bulk.FirstError(changes, all, {}) == Some(all[i].error)
            else Planning(changes, all, i + 1, seen + {ref}, if Bulk.Blocks(all[i]) then blocked + [ref] else blocked)
  {
    hide Bulk.Blocks, Bulk.Blockers;
    var rest, plans := changes[i..], all[i..];
    assert rest[1..] == changes[i + 1..] && plans[1..] == all[i + 1..];
    assert rest[0] == changes[i] && plans[0] == all[i];
    BlockersNext(rest, plans, blocked);
  }

  lemma {:induction false} BlockersNext(rest: seq<Bulk.Change>, plans: seq<Decision>, blocked: seq<Ref>)
    requires |plans| == |rest| && rest != []
    ensures blocked + Bulk.Blockers(rest, plans) ==
            (if Bulk.Blocks(plans[0]) then blocked + [rest[0].ref] else blocked) + Bulk.Blockers(rest[1..], plans[1..])
  {
    hide Bulk.Blocks;
    var more := Bulk.Blockers(rest[1..], plans[1..]);
    if Bulk.Blocks(plans[0]) {
      assert blocked + ([rest[0].ref] + more) == blocked + [rest[0].ref] + more;
    } else {
      assert [] + more == more;
    }
  }

  ghost predicate Drafting(changes: seq<DraftChange>, all: seq<DraftPlan>, i: nat, seen: set<Ref>, blocked: seq<Ref>)
    requires |all| == |changes| && i <= |changes|
  {
    && DraftError(changes, all, {}) == DraftError(changes[i..], all[i..], seen)
    && DraftBlockers(changes, all) == blocked + DraftBlockers(changes[i..], all[i..])
  }

  lemma {:induction false} DraftingEnds(changes: seq<DraftChange>, all: seq<DraftPlan>)
    requires |all| == |changes|
    ensures Drafting(changes, all, 0, {}, [])
    ensures forall seen, blocked | Drafting(changes, all, |changes|, seen, blocked) ::
              DraftError(changes, all, {}) == None && DraftBlockers(changes, all) == blocked
  {
    assert changes[0..] == changes && all[0..] == all;
    assert [] + DraftBlockers(changes, all) == DraftBlockers(changes, all);
    assert forall blocked: seq<Ref> :: blocked + [] == blocked;
  }

  lemma {:induction false} DraftNext(changes: seq<DraftChange>, all: seq<DraftPlan>, i: nat, seen: set<Ref>,
                                     blocked: seq<Ref>)
    requires |all| == |changes| && i < |changes| && Drafting(changes, all, i, seen, blocked)
    ensures var ref := changes[i].ref;
            if ref in seen then DraftError(changes, all, {}) == Some(Refused("duplicate record in bulk branch commit"))
            else if all[i].DraftRaise? then DraftError(changes, all, {}) == Some(all[i].error)
            else Drafting(changes, all, i + 1, seen + {ref},
                          if all[i].DraftMissing? || all[i].DraftDrifted? then blocked + [ref] else blocked)
  {
    hide DraftBlockers;
    var rest, plans := changes[i..], all[i..];
    assert rest[1..] == changes[i + 1..] && plans[1..] == all[i + 1..];
    assert rest[0] == changes[i] && plans[0] == all[i];
    DraftBlockersNext(rest, plans, blocked);
  }

  lemma {:induction false} DraftBlockersNext(rest: seq<DraftChange>, plans: seq<DraftPlan>, blocked: seq<Ref>)
    requires |plans| == |rest| && rest != []
    ensures blocked + DraftBlockers(rest, plans) ==
            (if plans[0].DraftMissing? || plans[0].DraftDrifted? then blocked + [rest[0].ref] else blocked) +
            DraftBlockers(rest[1..], plans[1..])
  {
    var more := DraftBlockers(rest[1..], plans[1..]);
    if plans[0].DraftMissing? || plans[0].DraftDrifted? {
      assert blocked + ([rest[0].ref] + more) == blocked + [rest[0].ref] + more;
    } else {
      assert [] + more == more;
    }
  }

  /** The first `n` answers of the outside world. */
  function Answers(io: nat -> Restores.Io, n: nat): (answers: seq<Restores.Io>)
    ensures |answers| == n && forall i | 0 <= i < n :: answers[i] == io(i)
  {
    seq(n, i requires 0 <= i < n => io(i))
  }

  ghost predicate Sorting(p: Project, s: State, targets: seq<Restores.Target>, i: nat, already: seq<Ref>,
                          blocked: seq<Ref>, jobs: seq<Restores.Job>)
    requires i <= |targets|
  {
    && Restores.Judged(p, s, targets, Restores.Unreadable) == Restores.Judged(p, s, targets[i..], Restores.Unreadable)
    && Restores.Judged(p, s, targets, Restores.AtTarget) == already + Restores.Judged(p, s, targets[i..], Restores.AtTarget)
    && Restores.Judged(p, s, targets, Restores.Blocking) == blocked + Restores.Judged(p, s, targets[i..], Restores.Blocking)
    && Restores.Jobs(p, s, targets) == jobs + Restores.Jobs(p, s, targets[i..])
  }

  lemma {:induction false} SortOne(p: Project, s: State, targets: seq<Restores.Target>, i: nat, already: seq<Ref>,
                                   blocked: seq<Ref>, jobs: seq<Restores.Job>)
    requires i < |targets| && Sorting(p, s, targets, i, already, blocked, jobs)
    ensures match Restores.Judge(p, s, targets[i])
            case Unreadable => Restores.Judged(p, s, targets, Restores.Unreadable) != []
            case AtTarget => Sorting(p, s, targets, i + 1, already + [targets[i].ref], blocked, jobs)
            case Blocking => Sorting(p, s, targets, i + 1, already, blocked + [targets[i].ref], jobs)
            case Planned(seed) => Sorting(p, s, targets, i + 1, already, blocked, jobs + [Restores.Job(targets[i], seed)])
  {
    hide Restores.Judge;
    assert targets[i..][1..] == targets[i + 1..];
  }

  /** What a run reports, after what came before it. */
  function Added(done: seq<Ref>, failed: seq<Ref>, rest: (State, seq<Ref>, seq<Ref>)): (State, seq<Ref>, seq<Ref>)
  {
    (rest.0, done + rest.1, failed + rest.2)
  }

  lemma AddedNone(rest: (State, seq<Ref>, seq<Ref>))
    ensures Added([], [], rest) == rest
  {
    assert [] + rest.1 == rest.1 && [] + rest.2 == rest.2;
  }

  lemma AddedOne(done: seq<Ref>, failed: seq<Ref>, raised: bool, ref: Ref, rest: (State, seq<Ref>, seq<Ref>))
    ensures var (end, d, f) := rest;
            Added(done, failed, if raised then (end, d, [ref] + f) else (end, [ref] + d, f)) ==
            if raised then Added(done, failed + [ref], rest) else Added(done + [ref], failed, rest)
  {
    assert failed + ([ref] + rest.2) == failed + [ref] + rest.2;
    assert done + ([ref] + rest.1) == done + [ref] + rest.1;
  }

  /** The targets found after looking at the records `seen`. */
  lemma OneFewer<T>(all: set<T>, left: set<T>, x: T)
    requires left <= all && x in left
    ensures all - (left - {x}) == (all - left) + {x}
  {
  }

  ghost predicate Picked(s: State, pick: Ref -> Option<nat>, targets: seq<Restores.Target>, seen: set<Ref>)
  {
    && Restores.OneEach(targets)
    && (forall i | 0 <= i < |targets| :: Restores.Picks(s, pick, targets[i]) && targets[i].ref in seen)
    && (forall ref | ref in seen && pick(ref).Some? :: exists i :: 0 <= i < |targets| && targets[i].ref == ref)
  }

  lemma PickNone(s: State, pick: Ref -> Option<nat>)
    ensures Picked(s, pick, [], {})
  {
  }

  lemma PickedAll(s: State, pick: Ref -> Option<nat>, targets: seq<Restores.Target>, seen: set<Ref>)
    requires Picked(s, pick, targets, seen) && forall ref | pick(ref).Some? :: ref in seen
    ensures Restores.Targets(s, pick, targets)
  {
  }

  lemma PickOne(s: State, pick: Ref -> Option<nat>, targets: seq<Restores.Target>, seen: set<Ref>, ref: Ref)
    requires Picked(s, pick, targets, seen) && ref !in seen
    requires pick(ref).Some? ==> Key(ref, pick(ref).value) in s.rows
    ensures match pick(ref)
            case None => Picked(s, pick, targets, seen + {ref})
            case Some(k) => Picked(s, pick, targets + [Restores.TargetAt(s, Key(ref, k))], seen + {ref})
  {
    if pick(ref).Some? {
      var more := targets + [Restores.TargetAt(s, Key(ref, pick(ref).value))];
      assert more[|targets|].ref == ref;
      forall r | r in seen + {ref} && pick(r).Some? ensures exists i :: 0 <= i < |more| && more[i].ref == r {
        if r != ref {
          var i :| 0 <= i < |targets| && targets[i].ref == r;
          assert more[i].ref == r;
        }
      }
    }
  }

  lemma AsOfHasRow(s: State, ref: Ref, when: Time)
    requires AsOf(s, ref, when).Some?
    ensures Key(ref, AsOf(s, ref, when).value) in s.rows
  {
    assert AsOf(s, ref, when).value in QualifyingSeqs(s, ref, when);
  }

  /** The HEAD rows of the records `seen` tagged. */
  ghost function TagSome(s: State, seen: set<Ref>, tag: string): State
  {
    s.(rows := map key | key in s.rows ::
         if key.ref in seen && key.ref in s.heads && s.heads[key.ref].seqNo == key.seqNo
         then s.rows[key].(tags := s.rows[key].tags + {tag}) else s.rows[key])
  }

  lemma TagOne(s: State, seen: set<Ref>, ref: Ref, tag: string)
    ensures var (now, next) := (TagSome(s, seen, tag), TagSome(s, seen + {ref}, tag));
            && GetHead(now, ref).Some? == (ref in s.heads && Key(ref, s.heads[ref].seqNo) in s.rows)
            && next == if GetHead(now, ref).Some? then AddTag(now, Key(ref, GetHead(now, ref).value.seqNo), tag) else now
  {
    var (now, next) := (TagSome(s, seen, tag), TagSome(s, seen + {ref}, tag));
    if GetHead(now, ref).Some? {
      assert next.rows == AddTag(now, Key(ref, GetHead(now, ref).value.seqNo), tag).rows;
    } else {
      assert next.rows == now.rows;
    }
  }

  lemma FreezesTips(drafts: Drafts, branch: string, latest: map<Ref, string>, records: map<Ref, Frozen>)
    requires latest.Keys == BranchRecords(drafts, branch)
    requires forall ref | ref in latest :: Latest(drafts, branch, ref) == Some(latest[ref])
    requires records.Keys == latest.Keys
    requires forall ref | ref in latest ::
               latest[ref] in drafts && records[ref] == Frozen(latest[ref], drafts[latest[ref]].oid)
    ensures records == FreezeNow(drafts, branch)
  {
    hide Latest, BranchRecords;
  }

  lemma NoTipOutside(drafts: Drafts, branch: string, ref: Ref)
    ensures ref !in BranchRecords(drafts, branch) ==> Latest(drafts, branch, ref) == None
  {
  }

  /** A batch names a record more than once. */
  ghost predicate OneRecordTwice(changes: seq<DraftChange>)
  {
    exists i, j | 0 <= i < j < |changes| :: changes[i].ref == changes[j].ref
  }

  /** A merge plan whose items come after `items`. */
  function Headed(items: seq<Item>, rest: Result<seq<Item>>): Result<seq<Item>>
  {
    if rest.Err? then rest else Ok(items + rest.value)
  }

  lemma HeadedNone(rest: Result<seq<Item>>)
    ensures Headed([], rest) == rest
  {
    if rest.Ok? {
      assert [] + rest.value == rest.value;
    }
  }

  lemma HeadedMore(items: seq<Item>, it: Item, rest: Result<seq<Item>>)
    ensures Headed(items, if rest.Err? then rest else Ok([it] + rest.value)) == Headed(items + [it], rest)
  {
    if rest.Ok? {
      assert items + ([it] + rest.value) == items + [it] + rest.value;
    }
  }

  lemma HeadedStep(p: Project, s: State, branch: string, order: seq<Ref>, clock: nat -> Time, i: nat,
                   items: seq<Item>)
    requires i < |order|
    ensures Headed(items, MergeItems(p, s, branch, order[i..], clock, i)) ==
            match MergeDecision(p, s, branch, order[i], clock(i))
            case Ready(it) => Headed(items + [it], MergeItems(p, s, branch, order[i + 1..], clock, i + 1))
            case Raise(e) => Err(e)
            case ChangedOutside(_, _) => Err(Refused("changed outside cfgit"))
            case MainMoved(_) => Err(Refused("main moved since branch commit"))
            case Nothing => Err(Refused("nothing"))
  {
    hide MergeDecision;
    assert order[i..][0] == order[i] && order[i..][1..] == order[i + 1..];
    match MergeDecision(p, s, branch, order[i], clock(i))
    case Ready(it) => HeadedMore(items, it, MergeItems(p, s, branch, order[i + 1..], clock, i + 1));
    case _ =>
  }

  lemma {:induction false} HeadedAll(p: Project, s: State, branch: string, order: seq<Ref>, clock: nat -> Time,
                                     items: seq<Item>)
    ensures Headed(items, MergeItems(p, s, branch, order[|order|..], clock, |order|)) == Ok(items)
  {
    assert order[|order|..] == [] && items + [] == items;
  }

  lemma {:induction false} MergeIsInOrder(p: Project, s: State, branch: string, clock: nat -> Time)
    requires MergeItems(p, s, branch, MergeOrder(s.refs.drafts, branch), clock, 0).Ok?
    ensures var order := MergeOrder(s.refs.drafts, branch);
            var items := MergeItems(p, s, branch, order, clock, 0).value;
            |items| == |order| && Distinct(items) && forall i | 0 <= i < |order| :: items[i].ref == order[i]
  {
    hide MergeItems, MergeDecision, Sound, Guarded;
    var order := MergeOrder(s.refs.drafts, branch);
    MergeItemsLength(p, s, branch, order, clock, 0);
    forall i | 0 <= i < |order| ensures MergeItems(p, s, branch, order, clock, 0).value[i].ref == order[i] {
      MergeItemAt(p, s, branch, order, clock, i);
    }
  }

  lemma {:induction false} MergeIsNotEmpty(p: Project, s: State, branch: string, clock: nat -> Time)
    requires BranchRecords(s.refs.drafts, branch) != {}
    requires MergeItems(p, s, branch, MergeOrder(s.refs.drafts, branch), clock, 0).Ok?
    ensures MergeItems(p, s, branch, MergeOrder(s.refs.drafts, branch), clock, 0).value != []
  {
    var ref :| ref in BranchRecords(s.refs.drafts, branch);
    assert ref in MergeOrder(s.refs.drafts, branch);
    MergeItemsLength(p, s, branch, MergeOrder(s.refs.drafts, branch), clock, 0);
  }
}
