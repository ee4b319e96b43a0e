/** The storage adapter as an object: the fields of the store, and the transaction that updates
    them step by step. */
module Adapters {
  import opened Documents
  import opened Hashing
  import opened Runtime
  import opened Store
  import opened Plans
  import opened Branches
  import opened Protocol
  import opened Texts

  class Adapter {
    const p: Project
    var live: map<Ref, Doc>
    var rows: map<Key, Row>
    var heads: map<Ref, Ptr>
    var refs: Refs

    ghost function Snap(): State
      reads this
    {
      State(live, rows, heads, refs)
    }

    constructor (p: Project, live: map<Ref, Doc>)
      ensures this.p == p && Snap() == State(live, map[], map[], Refs(map[], map[], map[]))
      ensures Chain(p, Snap())
    {
      this.p := p;
      this.live := live;
      rows := map[];
      heads := map[];
      refs := Refs(map[], map[], map[]);
      new;
      forall ref ensures ChainAt(p, Snap(), ref) {
      }
    }

    method GetRecord(ref: Ref) returns (doc: Option<Doc>)
      ensures doc == Live(Snap(), ref)
    {
      if ref in live {
        return Some(live[ref]);
      }
      return None;
    }

    method ReadHead(ref: Ref) returns (head: Option<HeadRow>)
      ensures head == GetHead(Snap(), ref)
    {
      if ref !in heads {
        return None;
      }
      var ptr := heads[ref];
      if Key(ref, ptr.seqNo) !in rows {
        return None;
      }
      return Some(HeadRow(rows[Key(ref, ptr.seqNo)].entry, ptr.seqNo));
    }

    /** All heads of some records of one collection, in two queries instead of two per record. */
    method GetHeads(collection: string, ids: set<string>) returns (out: map<string, HeadRow>)
      ensures forall id :: id in out <==> id in ids && GetHead(Snap(), Ref(collection, id)).Some?
      ensures forall id | id in out :: Some(out[id]) == GetHead(Snap(), Ref(collection, id))
    {
      var want := map id | id in ids && Ref(collection, id) in heads :: heads[Ref(collection, id)].seqNo;
      var found := set key | key in rows && key.ref.collection == collection && key.ref.recordId in want &&
                             key.seqNo in want.Values;
      out := map[];
      var left := found;
      while left != {}
        invariant left <= found
        invariant forall id :: id in out <==> id in want && Key(Ref(collection, id), want[id]) in found - left
        invariant forall id | id in out :: out[id] == HeadRow(rows[Key(Ref(collection, id), want[id])].entry, want[id])
        decreases |left|
      {
        var key :| key in left;
        left := left - {key};
        var id := key.ref.recordId;
        assert key.ref == Ref(collection, id) && key in found;
        if want[id] == key.seqNo {
          out := out[id := HeadRow(rows[key].entry, key.seqNo)];
        }
      }
    }

    /** The steps of one write inside a transaction. On an error the fields are left as they
        are at that point: rolling back is the transaction's business. */
    method ApplyItem(it: Item) returns (r: Result<nat>)
      modifies this
      ensures refs == old(refs)
      ensures match Apply(p, old(Snap()), it)
              case Ok(s) => Snap() == s && r == Ok(HeadSeq(s, it.ref))
              case Err(e) => r == Err(e)
    {
      hide HashDoc, PutDoc, SeedDoc;
      var ref := it.ref;
      var ptr := if ref in heads then Some(heads[ref]) else None;
      var currentHead := if ptr.Some? then Some(ptr.value.oid) else None;
      if currentHead != it.expectedHead {
        return Err(StaleHead);
      }
      if it.expectedLive.Some? {
        if ref !in live {
          return Err(NoSuchConfig);
        }
        var liveOid := p.Hash(ref, live[ref]);
        if liveOid == None {
          return Err(Unhashable);
        }
        if liveOid != it.expectedLive {
          return Err(StaleLive);
        }
      }
      var seqNo := if ptr.Some? then ptr.value.seqNo + 1 else 1;
      if Key(ref, seqNo) in rows {
        return Err(DuplicateKey);
      }
      rows := rows[Key(ref, seqNo) := Row(it.entry, None, {})];
      if ptr.Some? {
        var before := Key(ref, ptr.value.seqNo);
        if before in rows && rows[before].validTo == None {
          rows := rows[before := rows[before].(validTo := Some(it.entry.validFrom))];
        }
      }
      if it.newDoc.Some? {
        var c := p.coll(ref.collection);
        if it.seedMissing {
          if ref in live {
            return Err(StaleLive);
          }
          live := live[ref := SeedDoc(p.backend, c, ref.recordId, it.newDoc.value, it.freshId)];
        } else {
          if ref !in live {
            return Err(NoSuchConfig);
          }
          var put := PutRecord(p.backend, c, ref.recordId, live[ref], it.newDoc.value);
          live := live[ref := put];
        }
      }
      heads := heads[ref := Ptr(it.entry.oid, seqNo)];
      return Ok(seqNo);
    }

    /** A transaction of one write. */
    method ApplyOnce(it: Item) returns (r: Result<nat>)
      modifies this
      ensures match Apply(p, old(Snap()), it)
              case Ok(s) => Snap() == s && r == Ok(HeadSeq(s, it.ref))
              case Err(e) => Snap() == old(Snap()) && r == Err(e)
    {
      hide Apply;
      var live0, rows0, heads0 := live, rows, heads;
      r := ApplyItem(it);
      if r.Err? {
        live, rows, heads := live0, rows0, heads0;
      }
    }

    /** A transaction over several writes, and the request they belong to: all or nothing. The answer
        names the new row of every write. */
    method ApplyAll(items: seq<Item>, putPr: Option<(string, PullRequest)>) returns (r: Result<seq<nat>>)
      modifies this
      ensures match ApplyMany(p, old(Snap()), items)
              case Ok(s) =>
                && r.Ok? && |r.value| == |items|
                && Snap() == (if putPr.Some? && items != []
                              then s.(refs := s.refs.(prs := s.refs.prs[putPr.value.0 := putPr.value.1])) else s)
              case Err(e) => r == Err(e) && Snap() == old(Snap())
      ensures r.Ok? ==> NamesNewRows(old(Snap()), Snap(), items, r.value)
      ensures r.Ok? && Distinct(items) ==> NumbersHeads(old(Snap()), Snap(), items, r.value)
    {
      hide Apply, NamesNewRows, NumbersHeads, Distinct;
      if items == [] {
        NumbersTell(p, Snap(), items, Snap());
        return Ok([]);
      }
      var live0, rows0, heads0, refs0 := live, rows, heads, refs;
      var results: seq<nat> := [];
      assert items[0..] == items;
      for i := 0 to |items|
        invariant refs == refs0
        invariant ApplyMany(p, Snap(), items[i..]) == ApplyMany(p, old(Snap()), items)
        invariant results + Numbers(p, Snap(), items[i..]) == Numbers(p, old(Snap()), items)
      {
        assert items[i..][1..] == items[i + 1..];
        var result := ApplyItem(items[i]);
        if result.Err? {
          live, rows, heads, refs := live0, rows0, heads0, refs0;
          return Err(result.error);
        }
        Assoc(results, [result.value], Numbers(p, Snap(), items[i + 1..]));
        results := results + [result.value];
      }
      assert results + [] == results;
      if putPr.Some? {
        refs := refs.(prs := refs.prs[putPr.value.0 := putPr.value.1]);
      }
      NumbersTell(p, old(Snap()), items, Snap());
      return Ok(results);
    }

    /** `valid_from <= when < valid_to`, seq descending, limit 1. */
    method QueryAsOf(ref: Ref, when: Time) returns (best: Option<nat>)
      ensures best == AsOf(Snap(), ref, when)
      ensures best.Some? ==> Key(ref, best.value) in rows
    {
      var left := rows.Keys;
      best := None;
      while left != {}
        invariant left <= rows.Keys
        invariant best.Some? ==> Key(ref, best.value) in rows.Keys - left && Qualifies(rows[Key(ref, best.value)], when)
        invariant forall key | key in rows.Keys - left && key.ref == ref && Qualifies(rows[key], when) ::
                    best.Some? && key.seqNo <= best.value
        decreases |left|
      {
        var key :| key in left;
        left := left - {key};
        if key.ref == ref && Qualifies(rows[key], when) {
          if best == None || key.seqNo > best.value {
            best := Some(key.seqNo);
          }
        }
      }
      ghost var ks := QualifyingSeqs(Snap(), ref, when);
      forall k | k in ks ensures best.Some? && k <= best.value {
        assert Key(ref, k) in rows.Keys && Qualifies(rows[Key(ref, k)], when);
      }
      assert best.Some? ==> QualifyingSeqs(Snap(), ref, when) >= {best.value} by {
        if best.Some? {
          assert Key(ref, best.value) in Snap().rows;
        }
      }
    }

    method AddTagAt(key: Key, tag: string)
      modifies this`rows
      ensures Snap() == AddTag(old(Snap()), key, tag)
    {
      if key in rows {
        rows := rows[key := rows[key].(tags := rows[key].tags + {tag})];
      }
    }

    /** The drafts of a branch, grouped by record in one pass. */
    method DraftsByRecord(branch: string) returns (byRecord: map<Ref, set<string>>)
      ensures byRecord.Keys == BranchRecords(refs.drafts, branch)
      ensures forall ref | ref in byRecord :: byRecord[ref] == DraftsOf(refs.drafts, branch, ref)
    {
      var drafts := refs.drafts;
      var onBranch := set id | id in drafts && drafts[id].branch == branch;
      byRecord := map[];
      ghost var seen: set<string> := {};
      var left := onBranch;
      while left != {}
        invariant left <= onBranch && seen == onBranch - left
        invariant Grouped(drafts, seen, byRecord)
        decreases |left|
      {
        var id :| id in left;
        var ref := drafts[id].ref;
        left := left - {id};
        GroupOne(drafts, seen, byRecord, id);
        byRecord := byRecord[ref := (if ref in byRecord then byRecord[ref] else {}) + {id}];
        seen := seen + {id};
      }
      assert seen == onBranch;
      forall ref | ref in byRecord ensures byRecord[ref] == DraftsOf(drafts, branch, ref) {
        assert byRecord[ref] == set id | id in seen && drafts[id].ref == ref;
      }
    }

    /** The tip of every record of a branch. */
    method BranchLatestByRecord(branch: string) returns (latest: map<Ref, string>)
      ensures latest.Keys == BranchRecords(refs.drafts, branch)
      ensures forall ref | ref in latest :: Latest(refs.drafts, branch, ref) == Some(latest[ref])
    {
      var drafts := refs.drafts;
      var byRecord := DraftsByRecord(branch);
      latest := map[];
      var pending := byRecord.Keys;
      while pending != {}
        invariant pending <= byRecord.Keys && latest.Keys == byRecord.Keys - pending
        invariant forall ref | ref in latest :: Latest(drafts, branch, ref) == Some(latest[ref])
        decreases |pending|
      {
        var ref :| ref in pending;
        pending := pending - {ref};
        var tip := TipOf(drafts, branch, ref, byRecord[ref]);
        latest := latest[ref := tip];
      }
    }

    /** The tip among the drafts of one record. */
    static method TipOf(drafts: Drafts, branch: string, ref: Ref, commits: set<string>) returns (tip: string)
      requires commits == DraftsOf(drafts, branch, ref) && ref in BranchRecords(drafts, branch)
      ensures Latest(drafts, branch, ref) == Some(tip)
    {
      var candidates := commits - ParentsIn(drafts, commits);
      if candidates == {} {
        candidates := commits;
      }
      ghost var id :| id in drafts && drafts[id].branch == branch && drafts[id].ref == ref;
      assert id in commits;
      tip := Newest(drafts, candidates);
    }
  }

  /** Every number names a row of its write's record that was not there before, and holds what the write
      recorded. */
  ghost predicate NamesNewRows(s: State, later: State, items: seq<Item>, numbers: seq<nat>)
  {
    |numbers| == |items| &&
    forall i | 0 <= i < |items| ::
      var key := Key(items[i].ref, numbers[i]);
      key !in s.rows && key in later.rows && later.rows[key].entry == items[i].entry
  }

  /** Every number is its record's HEAD, one above the HEAD before. */
  ghost predicate NumbersHeads(s: State, later: State, items: seq<Item>, numbers: seq<nat>)
  {
    |numbers| == |items| &&
    forall i | 0 <= i < |items| :: numbers[i] == HeadSeq(later, items[i].ref) == HeadSeq(s, items[i].ref) + 1
  }

  /** The number every write gives its row. */
  function Numbers(p: Project, s: State, items: seq<Item>): seq<nat>
    decreases items
  {
    if items == [] then []
    else
      match Apply(p, s, items[0])
      case Err(_) => []
      case Ok(next) => [HeadSeq(next, items[0].ref)] + Numbers(p, next, items[1..])
  }

  ghost predicate RowsStay(s: State, later: State)
  {
    forall key | key in s.rows :: key in later.rows && later.rows[key].entry == s.rows[key].entry
  }

  ghost predicate OthersStay(s: State, later: State, items: seq<Item>)
  {
    forall ref | (forall it | it in items :: it.ref != ref) :: HeadSeq(later, ref) == HeadSeq(s, ref)
  }

  lemma {:induction false} NumbersAre(p: Project, s: State, items: seq<Item>)
    requires ApplyMany(p, s, items).Ok?
    ensures var end, numbers := ApplyMany(p, s, items).value, Numbers(p, s, items);
            && RowsStay(s, end) && OthersStay(s, end, items) && NamesNewRows(s, end, items, numbers)
            && (Distinct(items) ==> NumbersHeads(s, end, items, numbers))
    decreases items
  {
    hide Apply, HeadSeq, RowsStay, OthersStay, NamesNewRows, NumbersHeads, Distinct;
    if items == [] {
      NothingNumbered(s);
    } else {
      var next, end := Apply(p, s, items[0]).value, ApplyMany(p, s, items).value;
      ApplyNumbers(p, s, items[0]);
      OneWriteStays(s, next, items[0]);
      NumbersAre(p, next, items[1..]);
      StaysOn(s, next, end, items);
      OneMoreName(s, next, end, items, Numbers(p, next, items[1..]));
      if Distinct(items) {
        OneMoreHead(s, next, end, items, Numbers(p, next, items[1..]));
      }
    }
  }

  lemma NothingNumbered(s: State)
    ensures RowsStay(s, s) && OthersStay(s, s, []) && NamesNewRows(s, s, [], []) && NumbersHeads(s, s, [], [])
  {
  }

  lemma OneWriteStays(s: State, next: State, it: Item)
    requires forall key | key in s.rows :: key in next.rows && next.rows[key].entry == s.rows[key].entry
    requires forall ref | ref != it.ref :: HeadSeq(next, ref) == HeadSeq(s, ref)
    ensures RowsStay(s, next) && OthersStay(s, next, [it])
  {
    assert it in [it];
  }

  lemma StaysOn(s: State, next: State, end: State, items: seq<Item>)
    requires items != [] && RowsStay(s, next) && RowsStay(next, end)
    requires OthersStay(s, next, [items[0]]) && OthersStay(next, end, items[1..])
    ensures RowsStay(s, end) && OthersStay(s, end, items)
  {
    hide HeadSeq;
    assert items[0] in items && forall it | it in items[1..] :: it in items;
  }

  /** The first write's row, and those of the others. */
  lemma OneMoreName(s: State, next: State, end: State, items: seq<Item>, numbers: seq<nat>)
    requires items != [] && RowsStay(s, next) && RowsStay(next, end)
    requires var key := Key(items[0].ref, HeadSeq(next, items[0].ref));
             key !in s.rows && key in next.rows && next.rows[key].entry == items[0].entry
    requires NamesNewRows(next, end, items[1..], numbers)
    ensures NamesNewRows(s, end, items, [HeadSeq(next, items[0].ref)] + numbers)
  {
    hide HeadSeq;
    forall i | 0 < i < |items|
      ensures var key := Key(items[i].ref, numbers[i - 1]);
              key !in s.rows && key in end.rows && end.rows[key].entry == items[i].entry
    {
      assert items[i] == items[1..][i - 1];
    }
  }

  lemma OneMoreHead(s: State, next: State, end: State, items: seq<Item>, numbers: seq<nat>)
    requires items != [] && Distinct(items) && HeadSeq(next, items[0].ref) == HeadSeq(s, items[0].ref) + 1
    requires OthersStay(s, next, [items[0]]) && OthersStay(next, end, items[1..])
    requires Distinct(items[1..]) ==> NumbersHeads(next, end, items[1..], numbers)
    ensures NumbersHeads(s, end, items, [HeadSeq(next, items[0].ref)] + numbers)
  {
    hide HeadSeq;
    var rest := items[1..];
    assert forall i | 0 < i < |items| :: items[i] == rest[i - 1] && items[i].ref != items[0].ref;
    assert Distinct(rest);
    assert HeadSeq(end, items[0].ref) == HeadSeq(next, items[0].ref) by {
      assert forall it | it in rest :: it.ref != items[0].ref;
    }
    forall i | 0 < i < |items| ensures HeadSeq(next, items[i].ref) == HeadSeq(s, items[i].ref) {
      assert forall it | it in [items[0]] :: it.ref != items[i].ref;
    }
  }

  lemma {:induction false} NumbersTell(p: Project, s: State, items: seq<Item>, later: State)
    requires ApplyMany(p, s, items).Ok?
    requires later.rows == ApplyMany(p, s, items).value.rows && later.heads == ApplyMany(p, s, items).value.heads
    ensures |Numbers(p, s, items)| == |items| && NamesNewRows(s, later, items, Numbers(p, s, items))
    ensures Distinct(items) ==> NumbersHeads(s, later, items, Numbers(p, s, items))
  {
    hide ApplyMany, Numbers;
    NumbersAre(p, s, items);
  }

  /** `byRecord` groups the drafts `seen` by their record. */
  ghost predicate Grouped(drafts: Drafts, seen: set<string>, byRecord: map<Ref, set<string>>)
  {
    && seen <= drafts.Keys
    && (byRecord.Keys == set id | id in seen :: drafts[id].ref)
    && (forall ref | ref in byRecord :: byRecord[ref] == set id | id in seen && drafts[id].ref == ref)
  }

  lemma GroupOne(drafts: Drafts, seen: set<string>, byRecord: map<Ref, set<string>>, id: string)
    requires Grouped(drafts, seen, byRecord) && id in drafts
    ensures var ref := drafts[id].ref;
            Grouped(drafts, seen + {id}, byRecord[ref := (if ref in byRecord then byRecord[ref] else {}) + {id}])
  {
    var at := drafts[id].ref;
    var next := byRecord[at := (if at in byRecord then byRecord[at] else {}) + {id}];
    forall ref | ref in next ensures next[ref] == set x | x in seen + {id} && drafts[x].ref == ref {
      if ref !in byRecord {
        forall x | x in seen ensures drafts[x].ref != ref {
          assert drafts[x].ref in byRecord.Keys;
        }
      }
    }
  }
}
