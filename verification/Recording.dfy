/** What a call on one record answers, exactly when, and what it writes into the history. */
module Recording {
  import opened Documents
  import opened Hashing
  import opened Contents
  import opened Runtime
  import opened Store
  import opened Plans
  import opened Operations
  import opened Branches
  import opened Reviews

  // ----- the row that is written -----

  /** The history of the record goes on with one row: it records `doc` from `now` on, its number is HEAD's,
      nothing is tagged, the row before is closed at `now`, and no other row changes. */
  ghost predicate Wrote(p: Project, s: State, later: State, ref: Ref, doc: Doc, now: Time, op: Op)
  {
    var n := HeadSeq(s, ref);
    var key := Key(ref, n + 1);
    && key !in s.rows && key in later.rows && HeadSeq(later, ref) == n + 1
    && Records(p, ref, later.rows[key].entry, doc, now, op) && later.rows[key].entry.parent == HeadOid(s, ref)
    && later.rows[key].validTo == None && later.rows[key].tags == {}
    && HeadOid(later, ref) == Some(later.rows[key].entry.oid)
    && (forall k: nat | 1 <= k <= n :: Key(ref, k) in s.rows && Key(ref, k) in later.rows &&
          later.rows[Key(ref, k)] == s.rows[Key(ref, k)].(validTo := if k == n then Some(now)
                                                                     else s.rows[Key(ref, k)].validTo))
  }

  lemma ApplyWrites(p: Project, s: State, it: Item, doc: Doc, now: Time, op: Op)
    requires Chain(p, s) && Apply(p, s, it).Ok? && Records(p, it.ref, it.entry, doc, now, op)
    requires it.entry.parent == it.expectedHead
    ensures Wrote(p, s, Apply(p, s, it).value, it.ref, doc, now, op)
  {
    hide HashDoc, Stored, PutDoc, SeedDoc, Store.Written;
    assert ChainAt(p, s, it.ref);
    var n := HeadSeq(s, it.ref);
    assert forall k: nat | 1 <= k <= n :: Key(it.ref, k) in s.rows;
  }

  /** Whatever a call answers: it wrote the row of its document, numbered as answered, or nothing. */
  lemma CallWrites(p: Project, s: State, ref: Ref, intent: Intent, now: Time, freshId: Value)
    requires Chain(p, s)
    ensures var (later, out) := Operate(p, s, ref, intent, now, freshId);
            var doc := Source(intent, Live(s, ref));
            if out.Written?
            then && doc.Some? && Wrote(p, s, later, ref, doc.value, now, Kind(intent))
                 && HeadOid(later, ref) == Some(out.oid) && out.seqNo == HeadSeq(later, ref)
            else later == s
  {
    hide HashDoc, Stored, Apply, Decide, Wrote;
    var live, head := Live(s, ref), GetHead(s, ref);
    var decision := Decide(p, ref, live, head, intent, now, freshId);
    if decision.Ready? && Apply(p, s, decision.item).Ok? {
      DecisionsAreSafe(p, ref, live, head, intent, now, freshId);
      ApplyWrites(p, s, decision.item, Source(intent, live).value, now, Kind(intent));
      HeadIsWritten(p, s, decision.item);
    }
  }

  lemma HeadIsWritten(p: Project, s: State, it: Item)
    requires Apply(p, s, it).Ok?
    ensures HeadOid(Apply(p, s, it).value, it.ref) == Some(it.entry.oid)
  {
    hide HashDoc, PutDoc, SeedDoc;
  }

  // ----- exactly when a call answers what -----

  /** The commit can be compared with the record: both documents hash, and the record has not drifted. */
  ghost predicate Comparable(p: Project, s: State, ref: Ref, doc: Doc)
  {
    ref in s.live && Undrifted(p, s, ref) && p.Hash(ref, doc).Some?
  }

  lemma ReadyApplies(p: Project, s: State, ref: Ref, intent: Intent, now: Time, freshId: Value)
    requires Chain(p, s) && Decide(p, ref, Live(s, ref), GetHead(s, ref), intent, now, freshId).Ready?
    requires intent.WantRestore? ==> (intent.seedMissing <==> ref !in s.live)
    ensures Operate(p, s, ref, intent, now, freshId).1.Written?
  {
    hide HashDoc, Stored, PutDoc, SeedDoc;
    assert ChainAt(p, s, ref);
    HeadIsThere(p, s, ref);
    assert Key(ref, HeadSeq(s, ref) + 1) !in s.rows;
  }

  /** Each answer of a commit, exactly when it is given. */
  lemma CommitAnswers(p: Project, s: State, ref: Ref, doc: Doc, allowSecret: bool, now: Time)
    requires Chain(p, s)
    ensures var out := Operate(p, s, ref, WantCommit(doc, allowSecret), now, Null).1;
            var compared, refused := Comparable(p, s, ref, doc), SecretStops(p, ref, doc, allowSecret);
            && (out == Raised(NoSuchConfig) <==> ref !in s.live)
            && (out.Drift? <==> Drifted(p, s, ref))
            && (out.Drift? ==> out == Drift(p.Hash(ref, s.live[ref]).value, s.heads[ref].oid))
            && (out == NoChange <==> compared && p.Hash(ref, doc) == HeadOid(s, ref))
            && (out == Raised(SecretBlocked) <==> compared && p.Hash(ref, doc) != HeadOid(s, ref) && refused)
            && (out.Written? <==> compared && p.Hash(ref, doc) != HeadOid(s, ref) && !refused)
            && (out == Raised(Unhashable) <==>
                  ref in s.live &&
                  (p.Hash(ref, s.live[ref]) == None || (Undrifted(p, s, ref) && p.Hash(ref, doc) == None)))
  {
    hide HashDoc, Stored;
    HeadIsThere(p, s, ref);
    StoredKeepsHash(p.coll(ref.collection), doc);
    if DecideCommit(p, ref, Live(s, ref), GetHead(s, ref), doc, allowSecret, now).Ready? {
      ReadyApplies(p, s, ref, WantCommit(doc, allowSecret), now, Null);
    }
  }

  /** Each answer of an adopt. */
  lemma AdoptAnswers(p: Project, s: State, ref: Ref, allowSecret: bool, now: Time)
    requires Chain(p, s)
    ensures var out := Operate(p, s, ref, WantAdopt(allowSecret), now, Null).1;
            var oid := if ref in s.live then p.Hash(ref, s.live[ref]) else None;
            var refused := ref in s.live && SecretStops(p, ref, s.live[ref], allowSecret);
            && (out == Raised(NoSuchConfig) <==> ref !in s.live)
            && (out == Raised(Unhashable) <==> ref in s.live && oid == None)
            && (out == NoChange <==> oid.Some? && oid == HeadOid(s, ref))
            && (out == Raised(SecretBlocked) <==> oid.Some? && oid != HeadOid(s, ref) && refused)
            && (out.Written? <==> oid.Some? && oid != HeadOid(s, ref) && !refused)
  {
    hide HashDoc, Stored;
    HeadIsThere(p, s, ref);
    if ref in s.live {
      StoredKeepsHash(p.coll(ref.collection), s.live[ref]);
    }
    if DecideAdopt(p, ref, Live(s, ref), GetHead(s, ref), allowSecret, now).Ready? {
      ReadyApplies(p, s, ref, WantAdopt(allowSecret), now, Null);
    }
  }

  /** Each answer of an import: the secrets are looked at before the hash. */
  lemma ImportAnswers(p: Project, s: State, ref: Ref, allowSecret: bool, now: Time)
    requires Chain(p, s)
    ensures var out := Operate(p, s, ref, WantImport(allowSecret), now, Null).1;
            var unrecorded := ref in s.live && ref !in s.heads;
            var refused := ref in s.live && SecretStops(p, ref, s.live[ref], allowSecret);
            && (out == NoChange <==> !unrecorded)
            && (out == Raised(SecretBlocked) <==> unrecorded && refused)
            && (out == Raised(Unhashable) <==> unrecorded && !refused && p.Hash(ref, s.live[ref]) == None)
            && (out.Written? <==> unrecorded && !refused && p.Hash(ref, s.live[ref]).Some?)
  {
    hide HashDoc, Stored;
    HeadIsThere(p, s, ref);
    if ref in s.live {
      StoredKeepsHash(p.coll(ref.collection), s.live[ref]);
    }
    if DecideImport(p, ref, Live(s, ref), GetHead(s, ref), allowSecret, now).Ready? {
      ReadyApplies(p, s, ref, WantImport(allowSecret), now, Null);
    }
  }

  lemma RestoreDecides(p: Project, s: State, ref: Ref, target: Doc, now: Time, freshId: Value)
    requires ChainAt(p, s, ref)
    ensures var plan := DecideRestore(p, ref, Live(s, ref), GetHead(s, ref), target, ref !in s.live, now, freshId);
            && (plan.ChangedOutside? <==> Drifted(p, s, ref))
            && (plan.Ready? <==> Undrifted(p, s, ref) && p.Hash(ref, target).Some?)
            && (plan == Raise(Unhashable) <==>
                  (ref in s.live && p.Hash(ref, s.live[ref]) == None) ||
                  (Undrifted(p, s, ref) && p.Hash(ref, target) == None))
  {
    hide HashDoc, Stored, ChainAt;
    HeadIsThere(p, s, ref);
    StoredKeepsHash(p.coll(ref.collection), target);
  }

  /** Each answer of a restore that seeds exactly when there is nothing to replace. */
  lemma RestoreAnswers(p: Project, s: State, ref: Ref, target: Doc, now: Time, freshId: Value)
    requires Chain(p, s)
    ensures var out := Operate(p, s, ref, WantRestore(target, ref !in s.live), now, freshId).1;
            && (out.Drift? <==> Drifted(p, s, ref))
            && (out.Written? <==> Undrifted(p, s, ref) && p.Hash(ref, target).Some?)
            && (out == Raised(Unhashable) <==>
                  (ref in s.live && p.Hash(ref, s.live[ref]) == None) ||
                  (Undrifted(p, s, ref) && p.Hash(ref, target) == None))
  {
    hide HashDoc, Apply, DecideRestore, Drifted, Undrifted, GetHead, ChainAt;
    assert ChainAt(p, s, ref);
    RestoreDecides(p, s, ref, target, now, freshId);
    if DecideRestore(p, ref, Live(s, ref), GetHead(s, ref), target, ref !in s.live, now, freshId).Ready? {
      ReadyApplies(p, s, ref, WantRestore(target, ref !in s.live), now, freshId);
    }
  }

  // ----- in terms of the content -----

  /** A commit that answers that nothing changed was handed content alike to what is live. */
  lemma NoChangeMeansAlike(p: Project, s: State, ref: Ref, doc: Doc, allowSecret: bool, now: Time)
    requires Chain(p, s) && Comparable(p, s, ref, doc) && ref in s.heads
    ensures var c := p.coll(ref.collection);
            Operate(p, s, ref, WantCommit(doc, allowSecret), now, Null).1 == NoChange <==>
              Alike(c.lib, Obj(Strip(c, doc)), Obj(Strip(c, s.live[ref])))
  {
    hide HashDoc, Strip, Alike, Operate;
    CommitAnswers(p, s, ref, doc, allowSecret, now);
    ContentDecides(p.coll(ref.collection), doc, s.live[ref]);
  }

  /** A record has drifted exactly when its live content is not alike to the content HEAD records. */
  lemma DriftMeansNotAlike(p: Project, s: State, ref: Ref)
    requires Chain(p, s) && ref in s.live && ref in s.heads && p.Hash(ref, s.live[ref]).Some?
    ensures var c, key := p.coll(ref.collection), Key(ref, HeadSeq(s, ref));
            && key in s.rows
            && (Undrifted(p, s, ref) <==>
                  Alike(c.lib, Obj(Strip(c, s.live[ref])), Obj(Strip(c, s.rows[key].entry.doc))))
  {
    hide HashDoc, Strip, Alike, Stored;
    assert ChainAt(p, s, ref);
    var key := Key(ref, HeadSeq(s, ref));
    assert key in s.rows && Honest(p, ref, s.rows[key].entry);
    ContentDecides(p.coll(ref.collection), s.live[ref], s.rows[key].entry.doc);
  }

  // ----- drafts -----

  /** What a draft of a record is compared with: the draft committed last on the branch, or HEAD. */
  ghost function BaseOid(s: State, log: seq<string>, branch: string, ref: Ref): Option<Oid>
    requires Journaled(s.refs.drafts, log)
  {
    LastOfIs(s.refs.drafts, log, branch, ref);
    var tip := LastOf(s.refs.drafts, log, branch, ref);
    if tip.Some? then Some(s.refs.drafts[tip.value].oid) else HeadOid(s, ref)
  }

  /** Each answer of planning one draft, exactly when it is given, and what the draft holds. */
  lemma {:induction false} DraftAnswers(p: Project, s: State, log: seq<string>, branch: string,
                                        change: DraftChange, allowSecret: bool)
    requires Chain(p, s) && Journaled(s.refs.drafts, log)
    ensures var plan, ref, doc := PlanDraft(p, s, branch, change, allowSecret), change.ref, change.doc;
            var compared, refused := Comparable(p, s, ref, doc), SecretStops(p, ref, doc, allowSecret);
            var newer := p.Hash(ref, doc) != BaseOid(s, log, branch, ref);
            && (plan.DraftMissing? <==> ref !in s.live)
            && (plan.DraftDrifted? <==> Drifted(p, s, ref))
            && (plan == DraftRaise(Unhashable) <==>
                  ref in s.live &&
                  (p.Hash(ref, s.live[ref]) == None || (Undrifted(p, s, ref) && p.Hash(ref, doc) == None)))
            && (plan.DraftNoop? <==> compared && !newer)
            && (plan == DraftRaise(SecretBlocked) <==> compared && newer && refused)
            && (plan.DraftReady? <==> compared && newer && !refused)
            && (plan.DraftReady? ==>
                  plan.draft == Draft(branch, ref, p.Hash(ref, doc).value, Stored(p.coll(ref.collection), doc),
                                      LastOf(s.refs.drafts, log, branch, ref), HeadOid(s, ref), change.now))
  {
    hide HashDoc, Stored, Journaled, Latest, LastOf;
    assert ChainAt(p, s, change.ref);
    HeadIsThere(p, s, change.ref);
    TipIsLastCommitted(s.refs.drafts, log, branch, change.ref);
  }

  /** The draft of a change can be stored, or is the tip already. */
  ghost predicate Draftable(p: Project, s: State, log: seq<string>, branch: string, change: DraftChange, allow: bool)
    requires Journaled(s.refs.drafts, log)
  {
    Comparable(p, s, change.ref, change.doc) &&
    (p.Hash(change.ref, change.doc) == BaseOid(s, log, branch, change.ref) ||
     !SecretStops(p, change.ref, change.doc, allow))
  }

  /** A draft batch is stopped as a whole, and changes nothing, as soon as one record is missing, drifted or
      refused: it stores something exactly when the branch is there, the batch is well-formed, every change
      can be stored or is the tip already, and one is not. */
  lemma DraftBatchIff(p: Project, s: State, log: seq<string>, branch: string, changes: seq<DraftChange>, allow: bool)
    requires Chain(p, s) && Journaled(s.refs.drafts, log)
    ensures DraftIds(p, s, branch, changes, allow) != [] <==>
              && branch != p.mainBranch && branch in s.refs.branches && WellFormedBatch(s.refs.drafts, changes)
              && (forall change | change in changes :: Draftable(p, s, log, branch, change, allow))
              && exists change :: change in changes &&
                   p.Hash(change.ref, change.doc) != BaseOid(s, log, branch, change.ref)
    ensures DraftIds(p, s, branch, changes, allow) == [] ==> DoCommitDrafts(p, s, branch, changes, allow) == s.refs
  {
    hide HashDoc, Stored, Journaled, PlanDraft, Comparable, BaseOid, WellFormedBatch, ReadyIds, SecretStops;
    var plans := DraftPlans(p, s, branch, changes, allow);
    SomeReady(changes, plans);
    forall i | 0 <= i < |changes|
      ensures Stopped(plans[i]) <==> !Draftable(p, s, log, branch, changes[i], allow)
      ensures !Stopped(plans[i]) ==>
                (plans[i].DraftReady? <==>
                 p.Hash(changes[i].ref, changes[i].doc) != BaseOid(s, log, branch, changes[i].ref))
    {
      DraftAnswers(p, s, log, branch, changes[i], allow);
    }
    forall change | change in changes
      ensures exists i :: 0 <= i < |changes| && changes[i] == change
    {
    }
  }

  lemma {:induction false} SomeReady(changes: seq<DraftChange>, plans: seq<DraftPlan>)
    requires |plans| == |changes|
    ensures ReadyIds(changes, plans) == [] <==> forall i | 0 <= i < |changes| :: !plans[i].DraftReady?
  {
    if changes != [] {
      SomeReady(changes[1..], plans[1..]);
      if plans[0].DraftReady? {
        assert |ReadyIds(changes, plans)| > 0;
      } else {
        assert forall i | 0 < i < |changes| :: plans[1..][i - 1] == plans[i];
      }
    }
  }
}
