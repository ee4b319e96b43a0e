/** Draft commits on a branch, and which one is the tip of a record. */
module Branches {
  import opened Orders
  import opened Canonical
  import opened Documents
  import opened Hashing
  import opened Store
  import opened Plans

  type Drafts = map<string, Draft>

  function DraftsOf(drafts: Drafts, branch: string, ref: Ref): set<string>
  {
    set id | id in drafts && drafts[id].branch == branch && drafts[id].ref == ref
  }

  function BranchRecords(drafts: Drafts, branch: string): set<Ref>
  {
    set id | id in drafts && drafts[id].branch == branch :: drafts[id].ref
  }

  function ParentsIn(drafts: Drafts, ids: set<string>): set<string>
    requires ids <= drafts.Keys
  {
    set id | id in ids && drafts[id].parentCommit.Some? :: drafts[id].parentCommit.value
  }

  /** Creation time and id, the sort key of drafts. */
  predicate Older(a: (Time, string), b: (Time, string))
  {
    a.0 < b.0 || (a.0 == b.0 && Below(a.1, b.1))
  }

  lemma OlderIsTotal()
    ensures StrictTotal(Older)
  {
    BelowIsTotal();
    forall a: (Time, string), b: (Time, string), c: (Time, string)
      ensures !(Older(a, b) && Older(b, a)) && (a == b || Older(a, b) || Older(b, a))
      ensures Older(a, b) && Older(b, c) ==> Older(a, c)
    {
      BelowStrict(a.1, b.1, c.1);
    }
  }

  /** The last of `ids` sorted by creation time and id. */
  function Newest(drafts: Drafts, ids: set<string>): (id: string)
    requires ids != {} && ids <= drafts.Keys
    ensures id in ids
  {
    OlderIsTotal();
    var keys := set i | i in ids :: (drafts[i].createdAt, i);
    assert exists i :: i in ids;
    assert forall i | i in ids :: (drafts[i].createdAt, i) in keys;
    var sorted := Sorted(keys, Older);
    assert forall k | k in keys :: k in sorted;
    assert sorted[|sorted| - 1] in keys;
    sorted[|sorted| - 1].1
  }

  /** The tip of a record on a branch: the newest draft that is nobody's parent, or the newest
      of all where every draft is somebody's parent. */
  function Latest(drafts: Drafts, branch: string, ref: Ref): (id: Option<string>)
    ensures id.None? <==> DraftsOf(drafts, branch, ref) == {}
    ensures id.Some? ==> id.value in DraftsOf(drafts, branch, ref)
  {
    var commits := DraftsOf(drafts, branch, ref);
    if commits == {} then None
    else
      var tips := commits - ParentsIn(drafts, commits);
      Some(Newest(drafts, if tips == {} then commits else tips))
  }

  /** Nobody's parent on this branch for this record. */
  ghost predicate Childless(drafts: Drafts, branch: string, ref: Ref, id: string)
  {
    id in DraftsOf(drafts, branch, ref) &&
    forall other | other in DraftsOf(drafts, branch, ref) :: drafts[other].parentCommit != Some(id)
  }

  /** Created after `other`, or at the same time and with the greater id. */
  ghost predicate NotOlder(drafts: Drafts, id: string, other: string)
    requires id in drafts && other in drafts
  {
    drafts[other].createdAt < drafts[id].createdAt ||
    (drafts[other].createdAt == drafts[id].createdAt && (other == id || Precedes(other, id)))
  }

  /** Whatever links the drafts have: the tip is childless if any draft of the record is, and then no other
      childless one is newer; if none is, no draft of the record is newer than the tip. */
  lemma {:induction false} LatestIsNewest(drafts: Drafts, branch: string, ref: Ref, other: string)
    requires other in DraftsOf(drafts, branch, ref)
    ensures var tip := Latest(drafts, branch, ref);
            && tip.Some? && tip.value in drafts
            && (Childless(drafts, branch, ref, other) ==>
                  Childless(drafts, branch, ref, tip.value) && NotOlder(drafts, tip.value, other))
            && (!Childless(drafts, branch, ref, tip.value) ==> NotOlder(drafts, tip.value, other))
  {
    hide Newest, NotOlder;
    var commits := DraftsOf(drafts, branch, ref);
    var tips := commits - ParentsIn(drafts, commits);
    assert forall id :: id in tips <==> Childless(drafts, branch, ref, id);
    NewestIsNotOlder(drafts, if tips == {} then commits else tips);
  }

  lemma {:induction false} NewestIsNotOlder(drafts: Drafts, ids: set<string>)
    requires ids != {} && ids <= drafts.Keys
    ensures forall other | other in ids :: NotOlder(drafts, Newest(drafts, ids), other)
  {
    hide Below, Precedes;
    OlderIsTotal();
    var keys := set i | i in ids :: (drafts[i].createdAt, i);
    var sorted := Sorted(keys, Older);
    var first :| first in ids;
    assert (drafts[first].createdAt, first) in keys && (drafts[first].createdAt, first) in sorted;
    var last := sorted[|sorted| - 1];
    forall other | other in ids ensures NotOlder(drafts, Newest(drafts, ids), other) {
      var key := (drafts[other].createdAt, other);
      assert key in keys && key in sorted;
      assert last in keys;
      var i :| 0 <= i < |sorted| && sorted[i] == key;
      if i < |sorted| - 1 {
        assert Older(sorted[i], last);
        if key.0 == last.0 {
          BelowPrecedes(other, last.1);
        }
      }
    }
  }

  // ----- the order in which drafts were committed -----

  /** The draft of this record on this branch that was committed last. */
  ghost function LastOf(drafts: Drafts, log: seq<string>, branch: string, ref: Ref): Option<string>
  {
    if log == [] then None
    else
      var last := log[|log| - 1];
      if last in DraftsOf(drafts, branch, ref) then Some(last)
      else LastOf(drafts, log[..|log| - 1], branch, ref)
  }

  /** `log` lists the drafts in commit order, and each names as its parent the one committed
      before it for the same record on the same branch. */
  ghost predicate Journaled(drafts: Drafts, log: seq<string>)
  {
    && (forall i, j | 0 <= i < j < |log| :: log[i] != log[j])
    && (forall id :: id in drafts <==> id in log)
    && (forall i | 0 <= i < |log| :: Chained(drafts, log, i))
  }

  ghost predicate Chained(drafts: Drafts, log: seq<string>, i: nat)
    requires i < |log|
  {
    log[i] in drafts &&
    drafts[log[i]].parentCommit == LastOf(drafts, log[..i], drafts[log[i]].branch, drafts[log[i]].ref)
  }

  lemma {:induction false} LastOfIs(drafts: Drafts, log: seq<string>, branch: string, ref: Ref)
    ensures match LastOf(drafts, log, branch, ref)
            case None => forall i | 0 <= i < |log| :: log[i] !in DraftsOf(drafts, branch, ref)
            case Some(id) =>
              exists k | 0 <= k < |log| :: log[k] == id && id in DraftsOf(drafts, branch, ref) &&
                forall i | k < i < |log| :: log[i] !in DraftsOf(drafts, branch, ref)
  {
    if log != [] && log[|log| - 1] !in DraftsOf(drafts, branch, ref) {
      var rest := log[..|log| - 1];
      LastOfIs(drafts, rest, branch, ref);
      if LastOf(drafts, log, branch, ref).Some? {
        var id := LastOf(drafts, log, branch, ref).value;
        var k :| 0 <= k < |rest| && rest[k] == id && id in DraftsOf(drafts, branch, ref) &&
                 forall i | k < i < |rest| :: rest[i] !in DraftsOf(drafts, branch, ref);
        assert log[k] == id;
        assert forall i | k < i < |log| :: log[i] !in DraftsOf(drafts, branch, ref);
      }
    }
  }

  /** Among the first `n` drafts, every one of a record but the last is a parent. */
  lemma {:induction false} OthersAreParents(drafts: Drafts, log: seq<string>, n: nat, branch: string, ref: Ref,
                                            id: string)
    requires Journaled(drafts, log) && n <= |log|
    requires id in log[..n] && id in DraftsOf(drafts, branch, ref)
    requires LastOf(drafts, log[..n], branch, ref) != Some(id)
    ensures id in ParentsIn(drafts, DraftsOf(drafts, branch, ref))
  {
    var last := log[n - 1];
    assert log[..n][..n - 1] == log[..n - 1];
    assert Chained(drafts, log, n - 1);
    var prefix := log[..n];
    assert prefix[|prefix| - 1] == last && prefix == log[..n - 1] + [last];
    if last in DraftsOf(drafts, branch, ref) && LastOf(drafts, log[..n - 1], branch, ref) == Some(id) {
      assert drafts[last].parentCommit == Some(id);
    } else {
      OthersAreParents(drafts, log, n - 1, branch, ref, id);
    }
  }

  lemma {:induction false} LastIsNoParent(drafts: Drafts, log: seq<string>, branch: string, ref: Ref, id: string)
    requires Journaled(drafts, log) && LastOf(drafts, log, branch, ref) == Some(id)
    ensures id in DraftsOf(drafts, branch, ref) && id !in ParentsIn(drafts, DraftsOf(drafts, branch, ref))
  {
    LastOfIs(drafts, log, branch, ref);
    var k :| 0 <= k < |log| && log[k] == id && id in DraftsOf(drafts, branch, ref) &&
             forall i | k < i < |log| :: log[i] !in DraftsOf(drafts, branch, ref);
    if child :| child in DraftsOf(drafts, branch, ref) && drafts[child].parentCommit == Some(id) {
      assert child in log;
      var j :| 0 <= j < |log| && log[j] == child;
      assert Chained(drafts, log, j);
      LastOfIs(drafts, log[..j], branch, ref);
    }
  }

  /** The tip found by parent links is the draft committed last, even when creation times tie
      or run backwards and when ids sort the other way. */
  lemma {:induction false} TipIsLastCommitted(drafts: Drafts, log: seq<string>, branch: string, ref: Ref)
    requires Journaled(drafts, log)
    ensures Latest(drafts, branch, ref) == LastOf(drafts, log, branch, ref)
  {
    var commits := DraftsOf(drafts, branch, ref);
    LastOfIs(drafts, log, branch, ref);
    assert log[..|log|] == log;
    match LastOf(drafts, log, branch, ref)
    case None =>
      assert forall id | id in commits :: id in log;
      assert commits == {};
    case Some(last) =>
      LastIsNoParent(drafts, log, branch, ref, last);
      forall id | id in commits && id != last ensures id in ParentsIn(drafts, commits) {
        OthersAreParents(drafts, log, |log|, branch, ref, id);
      }
      assert commits - ParentsIn(drafts, commits) == {last};
  }

  // ----- committing drafts -----

  /** One change of a draft batch, with the id and clock reading it will get. */
  datatype DraftChange = DraftChange(ref: Ref, doc: Doc, id: string, now: Time)

  datatype DraftPlan =
    | DraftRaise(error: Error)
    | DraftMissing
    | DraftDrifted
    | DraftNoop
    | DraftReady(draft: Draft)

  function PlanDraft(p: Project, s: State, branch: string, change: DraftChange, allowSecret: bool): DraftPlan
  {
    var ref, doc := change.ref, change.doc;
    var head := GetHead(s, ref);
    if ref !in s.live then DraftMissing
    else if p.Hash(ref, s.live[ref]) == None then DraftRaise(Unhashable)
    else if head.Some? && p.Hash(ref, s.live[ref]) != OidOf(head) then DraftDrifted
    else
      var latest := Latest(s.refs.drafts, branch, ref);
      var parentOid := if latest.Some? then Some(s.refs.drafts[latest.value].oid) else OidOf(head);
      var newOid := p.Hash(ref, doc);
      if newOid == None then DraftRaise(Unhashable)
      else if newOid == parentOid then DraftNoop
      else if SecretStops(p, ref, doc, allowSecret) then DraftRaise(SecretBlocked)
      else DraftReady(Draft(branch, ref, newOid.value, Stored(p.coll(ref.collection), doc),
                            latest, OidOf(head), change.now))
  }

  function DraftPlans(p: Project, s: State, branch: string, changes: seq<DraftChange>,
                      allowSecret: bool): (plans: seq<DraftPlan>)
    ensures |plans| == |changes|
    ensures forall i | 0 <= i < |changes| :: plans[i] == PlanDraft(p, s, branch, changes[i], allowSecret)
  {
    seq(|changes|, i requires 0 <= i < |changes| => PlanDraft(p, s, branch, changes[i], allowSecret))
  }

  /** The ready drafts stored under their ids, one after the other. */
  function PutDrafts(drafts: Drafts, changes: seq<DraftChange>, plans: seq<DraftPlan>): Drafts
    requires |plans| == |changes|
    decreases changes
  {
    if changes == [] then drafts
    else PutDrafts(if plans[0].DraftReady? then drafts[changes[0].id := plans[0].draft] else drafts, changes[1..], plans[1..])
  }

  /** The ids that are stored, in order. */
  function ReadyIds(changes: seq<DraftChange>, plans: seq<DraftPlan>): seq<string>
    requires |plans| == |changes|
  {
    if changes == [] then []
    else (if plans[0].DraftReady? then [changes[0].id] else []) + ReadyIds(changes[1..], plans[1..])
  }

  /** Records and ids of a batch are new and distinct (ids are uuids). */
  predicate WellFormedBatch(drafts: Drafts, changes: seq<DraftChange>)
  {
    (forall i | 0 <= i < |changes| :: changes[i].id !in drafts) &&
    (forall i, j | 0 <= i < j < |changes| :: changes[i].ref != changes[j].ref && changes[i].id != changes[j].id)
  }

  lemma {:induction false} LastOfSame(drafts: Drafts, later: Drafts, log: seq<string>, branch: string, ref: Ref)
    requires forall id | id in log :: id in drafts && id in later && drafts[id] == later[id]
    ensures LastOf(drafts, log, branch, ref) == LastOf(later, log, branch, ref)
  {
    if log != [] {
      assert log[|log| - 1] in log;
      LastOfSame(drafts, later, log[..|log| - 1], branch, ref);
    }
  }

  lemma JournalOne(drafts: Drafts, log: seq<string>, id: string, draft: Draft)
    requires Journaled(drafts, log) && id !in drafts
    requires draft.parentCommit == LastOf(drafts, log, draft.branch, draft.ref)
    ensures Journaled(drafts[id := draft], log + [id])
  {
    var later, log' := drafts[id := draft], log + [id];
    forall i | 0 <= i < |log'| ensures Chained(later, log', i) {
      assert log'[..i] == log[..i];
      assert i < |log| ==> Chained(drafts, log, i);
      assert i == |log| ==> log[..i] == log;
      var at := later[log'[i]];
      LastOfSame(drafts, later, log[..i], at.branch, at.ref);
    }
    forall x ensures x in later <==> x in log' {
    }
  }

  lemma LastOfSkips(drafts: Drafts, log: seq<string>, id: string, draft: Draft, branch: string, ref: Ref)
    requires Journaled(drafts, log) && id !in drafts && (draft.branch != branch || draft.ref != ref)
    ensures LastOf(drafts[id := draft], log + [id], branch, ref) == LastOf(drafts, log, branch, ref)
  {
    assert (log + [id])[..|log|] == log;
    LastOfSame(drafts, drafts[id := draft], log, branch, ref);
  }

  /** Every plan still names the last draft of its record as the parent. */
  ghost predicate PlansFit(drafts: Drafts, log: seq<string>, branch: string, changes: seq<DraftChange>,
                           plans: seq<DraftPlan>)
    requires |plans| == |changes|
  {
    forall i | 0 <= i < |changes| && plans[i].DraftReady? ::
      var draft := plans[i].draft;
      draft.branch == branch && draft.ref == changes[i].ref &&
      draft.parentCommit == LastOf(drafts, log, branch, draft.ref)
  }

  lemma PlansFitOnwards(drafts: Drafts, log: seq<string>, branch: string, changes: seq<DraftChange>,
                        plans: seq<DraftPlan>)
    requires changes != [] && |plans| == |changes| && Journaled(drafts, log) && WellFormedBatch(drafts, changes)
    requires PlansFit(drafts, log, branch, changes, plans) && plans[0].DraftReady?
    ensures PlansFit(drafts[changes[0].id := plans[0].draft], log + [changes[0].id], branch, changes[1..], plans[1..])
    ensures Journaled(drafts[changes[0].id := plans[0].draft], log + [changes[0].id])
  {
    var id, draft := changes[0].id, plans[0].draft;
    JournalOne(drafts, log, id, draft);
    forall i | 0 <= i < |changes[1..]| && plans[1..][i].DraftReady?
      ensures plans[1..][i].draft.parentCommit ==
              LastOf(drafts[id := draft], log + [id], branch, plans[1..][i].draft.ref)
    {
      assert plans[i + 1].DraftReady? && changes[0].ref != changes[i + 1].ref;
      LastOfSkips(drafts, log, id, draft, branch, plans[i + 1].draft.ref);
    }
  }

  lemma RestFits(drafts: Drafts, log: seq<string>, branch: string, changes: seq<DraftChange>, plans: seq<DraftPlan>,
                 draft: Draft)
    requires changes != [] && |plans| == |changes| && WellFormedBatch(drafts, changes)
    ensures WellFormedBatch(drafts, changes[1..]) && WellFormedBatch(drafts[changes[0].id := draft], changes[1..])
    ensures PlansFit(drafts, log, branch, changes, plans) ==> PlansFit(drafts, log, branch, changes[1..], plans[1..])
  {
    hide LastOf;
    forall i | 0 <= i < |changes[1..]| ensures changes[1..][i].id !in drafts[changes[0].id := draft] {
      assert changes[0].id != changes[i + 1].id && changes[i + 1].id !in drafts;
    }
  }

  lemma {:induction false} PutDraftsJournals(drafts: Drafts, log: seq<string>, branch: string,
          changes: seq<DraftChange>, plans: seq<DraftPlan>)
    requires |plans| == |changes| && Journaled(drafts, log) && WellFormedBatch(drafts, changes)
    requires PlansFit(drafts, log, branch, changes, plans)
    ensures Journaled(PutDrafts(drafts, changes, plans), log + ReadyIds(changes, plans))
    decreases changes
  {
    hide Journaled, PlansFit, WellFormedBatch;
    if changes == [] {
      assert log + [] == log;
    } else if plans[0].DraftReady? {
      var id, draft := changes[0].id, plans[0].draft;
      RestFits(drafts, log, branch, changes, plans, draft);
      PlansFitOnwards(drafts, log, branch, changes, plans);
      PutDraftsJournals(drafts[id := draft], log + [id], branch, changes[1..], plans[1..]);
      assert log + [id] + ReadyIds(changes[1..], plans[1..]) == log + ReadyIds(changes, plans);
    } else {
      RestFits(drafts, log, branch, changes, plans, Draft(branch, changes[0].ref, "", map[], None, None, 0));
      PutDraftsJournals(drafts, log, branch, changes[1..], plans[1..]);
      assert log + ReadyIds(changes[1..], plans[1..]) == log + ReadyIds(changes, plans);
    }
  }

  lemma {:induction false} PutDraftsAdds(drafts: Drafts, branch: string, changes: seq<DraftChange>,
                                         plans: seq<DraftPlan>)
    requires |plans| == |changes| && WellFormedBatch(drafts, changes)
    requires forall i | 0 <= i < |changes| && plans[i].DraftReady? :: plans[i].draft.branch == branch
    ensures forall id | id in drafts ::
              id in PutDrafts(drafts, changes, plans) && PutDrafts(drafts, changes, plans)[id] == drafts[id]
    ensures forall id | id in PutDrafts(drafts, changes, plans) && id !in drafts ::
              id in ReadyIds(changes, plans) && PutDrafts(drafts, changes, plans)[id].branch == branch &&
              exists i :: 0 <= i < |changes| && plans[i] == DraftReady(PutDrafts(drafts, changes, plans)[id])
    ensures forall id | id in ReadyIds(changes, plans) :: id !in drafts && id in PutDrafts(drafts, changes, plans)
    decreases changes
  {
    if changes != [] {
      var next := if plans[0].DraftReady? then drafts[changes[0].id := plans[0].draft] else drafts;
      var rest := changes[1..];
      forall i | 0 <= i < |rest| ensures rest[i].id !in next {
        assert changes[0].id != changes[i + 1].id && changes[i + 1].id !in drafts;
      }
      PutDraftsAdds(next, branch, rest, plans[1..]);
      var end := PutDrafts(drafts, changes, plans);
      forall id | id in end && id !in drafts
        ensures id in ReadyIds(changes, plans) && end[id].branch == branch
        ensures exists i :: 0 <= i < |changes| && plans[i] == DraftReady(end[id])
      {
        if id in next {
          assert plans[0] == DraftReady(end[id]);
        } else {
          var i :| 0 <= i < |rest| && plans[1..][i] == DraftReady(end[id]);
          assert plans[i + 1] == DraftReady(end[id]);
        }
      }
    }
  }
}
