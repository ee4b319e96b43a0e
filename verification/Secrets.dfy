/** Whether the secrets a new document leaves out survive the write that replaces it. */
module Secrets {
  import opened Texts
  import opened Documents
  import opened Hashing
  import opened Conversions
  import opened Runtime

  /** A secret left out of the new document has, after the put, the value it had in the live one, as
      the backend keeps values: just that value on Mongo, and for JSON values on Postgres. */
  ghost predicate Preserved(b: Backend, c: Coll, recordId: string, doc: Doc, current: Doc, dotted: string)
  {
    Carries(RuntimeDoc(c, recordId, doc), current, dotted) ==>
      Get(PutDoc(b, c, recordId, current, doc), Split(dotted)) == Get(Persisted(b, c, current), Split(dotted))
  }

  /** The live documents a put can meet. Mongo finds them by the members cfgit sets; Postgres by
      columns, whatever the JSON document holds. */
  ghost predicate Meets(b: Backend, c: Coll, recordId: string, current: Doc)
  {
    b == Mongo ==> Found(c, recordId, current)
  }

  ghost predicate KeepsSecrets(b: Backend, c: Coll)
  {
    forall recordId: string, doc: Doc, current: Doc, dotted: string
        | Meets(b, c, recordId, current) && dotted in c.secretFields ::
      Preserved(b, c, recordId, doc, current, dotted)
  }

  predicate Above(p: Path, q: Path)
  {
    |p| < |q| && q[..|p|] == p
  }

  /** No secret is listed only after one that lies below it. */
  predicate ParentsFirst(secrets: seq<string>)
  {
    forall i, j | 0 <= i < j < |secrets| && Above(Split(secrets[j]), Split(secrets[i])) ::
      IsListed(secrets[..i], secrets[j])
  }

  predicate IsListed(secrets: seq<string>, dotted: string)
  {
    exists k | 0 <= k < |secrets| :: Split(secrets[k]) == Split(dotted)
  }

  // ----- parents first keeps every secret -----

  /** A carry elsewhere does not touch a value that is already the live one. */
  lemma {:induction false} SettledStays(d: Doc, current: Doc, q: Path, p: Path)
    requires p != [] && q != []
    requires Get(d, p) == Get(current, p) != Null && Get(d, q) == Null && Get(current, q) != Null
    ensures Get(Set(d, q, Get(current, q)), p) == Get(current, p)
    decreases p
  {
    if p[0] == q[0] && |p| > 1 && |q| > 1 {
      SettledStays(d[p[0]].m, current[p[0]].m, q[1..], p[1..]);
    }
  }

  lemma {:induction false} SettledForGood(effective: Doc, current: Doc, secrets: seq<string>, p: Path)
    requires p != [] && Get(effective, p) == Get(current, p) != Null
    ensures Get(Carry(effective, current, secrets), p) == Get(current, p)
    decreases secrets
  {
    if secrets != [] {
      if Carries(effective, current, secrets[0]) {
        SettledStays(effective, current, Split(secrets[0]), p);
      }
      SettledForGood(CarryOne(effective, current, secrets[0]), current, secrets[1..], p);
    }
  }

  lemma {:induction false} GetOfSet(d: Doc, p: Path, v: Value)
    requires p != []
    ensures Get(Set(d, p, v), p) == v
    decreases p
  {
    if |p| > 1 {
      GetOfSet(if p[0] in d && d[p[0]].Obj? then d[p[0]].m else map[], p[1..], v);
    }
  }

  /** A carry that is not below `p` leaves `p` empty or gives it its live value. */
  lemma {:induction false} CarryFillsWhole(d: Doc, current: Doc, q: Path, p: Path)
    requires p != [] && q != [] && !Above(p, q)
    requires Get(d, p) == Null && Get(current, q) != Null
    ensures Get(Set(d, q, Get(current, q)), p) in {Null, Get(current, p)}
    decreases p
  {
    if p[0] == q[0] && |q| > 1 {
      CarryFillsWhole(if p[0] in d && d[p[0]].Obj? then d[p[0]].m else map[], current[p[0]].m, q[1..], p[1..]);
    }
  }

  lemma {:induction false} FirstComesWhole(effective: Doc, current: Doc, secrets: seq<string>, j: nat, p: Path)
    requires j < |secrets| && p == Split(secrets[j])
    requires Get(effective, p) == Null && Get(current, p) != Null
    requires forall i | 0 <= i < j :: !Above(p, Split(secrets[i]))
    ensures Get(Carry(effective, current, secrets), p) == Get(current, p)
    decreases secrets
  {
    var next := CarryOne(effective, current, secrets[0]);
    if Carries(effective, current, secrets[0]) {
      if j == 0 {
        GetOfSet(effective, p, Get(current, p));
      } else {
        CarryFillsWhole(effective, current, Split(secrets[0]), p);
      }
    }
    if Get(next, p) == Null {
      FirstComesWhole(next, current, secrets[1..], j - 1, p);
    } else {
      SettledForGood(next, current, secrets[1..], p);
    }
  }

  /** The first secret with this path, before any secret below it. */
  lemma {:induction false} FirstListed(secrets: seq<string>, j: nat) returns (k: nat)
    requires j < |secrets| && ParentsFirst(secrets)
    ensures k < |secrets| && Split(secrets[k]) == Split(secrets[j])
    ensures forall i | 0 <= i < k :: !Above(Split(secrets[j]), Split(secrets[i]))
    decreases j
  {
    if i :| 0 <= i < j && Above(Split(secrets[j]), Split(secrets[i])) {
      var first :| 0 <= first < |secrets[..i]| && Split(secrets[..i][first]) == Split(secrets[j]);
      k := FirstListed(secrets, first);
    } else {
      k := j;
    }
  }

  lemma {:induction false} ParentsFirstKeeps(secrets: seq<string>, effective: Doc, current: Doc, dotted: string)
    requires ParentsFirst(secrets) && dotted in secrets && Carries(effective, current, dotted)
    ensures Get(Carry(effective, current, secrets), Split(dotted)) == Get(current, Split(dotted))
  {
    var j :| 0 <= j < |secrets| && secrets[j] == dotted;
    var k := FirstListed(secrets, j);
    FirstComesWhole(effective, current, secrets, k, Split(dotted));
  }

  /** With parents listed first, writing a version keeps every secret it leaves out, on either
      backend and over any live document. */
  lemma PutKeepsSecrets(b: Backend, c: Coll, recordId: string, current: Doc, doc: Doc, dotted: string)
    requires ParentsFirst(c.secretFields) && dotted in c.secretFields
    ensures Preserved(b, c, recordId, doc, current, dotted)
  {
    if Carries(RuntimeDoc(c, recordId, doc), current, dotted) {
      ParentsFirstKeeps(c.secretFields, RuntimeDoc(c, recordId, doc), current, dotted);
      PutShowsCarry(b, c, recordId, doc, current, Split(dotted));
      KeptGet(b, c, Carry(RuntimeDoc(c, recordId, doc), current, c.secretFields), current, Split(dotted));
    }
  }

  // ----- what else a put writes -----

  lemma {:induction false} SetBesideReads(d: Doc, p: Path, v: Value, g: Path)
    requires p != [] && g != [] && Beside(p, g)
    ensures Get(Set(d, p, v), g) == Get(d, g)
    decreases p
  {
    if p[0] == g[0] {
      assert p == [p[0]] + p[1..] && g == [g[0]] + g[1..];
      SetBesideReads(if p[0] in d && d[p[0]].Obj? then d[p[0]].m else map[], p[1..], v, g[1..]);
    }
  }

  lemma {:induction false} CarryBesideReads(effective: Doc, current: Doc, secrets: seq<string>, g: Path)
    requires g != [] && forall dotted | dotted in secrets :: Beside(Split(dotted), g)
    ensures Get(Carry(effective, current, secrets), g) == Get(effective, g)
    decreases secrets
  {
    if secrets != [] {
      assert secrets[0] in secrets && forall dotted | dotted in secrets[1..] :: dotted in secrets;
      if Carries(effective, current, secrets[0]) {
        SetBesideReads(effective, Split(secrets[0]), Get(current, Split(secrets[0])), g);
      }
      CarryBesideReads(CarryOne(effective, current, secrets[0]), current, secrets[1..], g);
    }
  }

  /** Where a member that is written comes from: `live_when` decides before the record id, and both before
      the version. */
  function Origin(c: Coll, recordId: string, doc: Doc, k: string): Doc
  {
    if k in c.liveWhen then c.liveWhen
    else if k == c.idField then map[k := Str(recordId)]
    else doc
  }

  /** Beside the secrets, a put writes the version, with the record id and `live_when` set, as the backend
      keeps values; on Mongo the ignored fields and `_id` stay those of the live document. */
  lemma {:induction false} PutWritesVersion(b: Backend, c: Coll, recordId: string, current: Doc, doc: Doc, g: Path)
    requires g != [] && forall dotted | dotted in c.secretFields :: Beside(Split(dotted), g)
    ensures Get(PutDoc(b, c, recordId, current, doc), g) ==
              if b == Mongo && Protected(c, g[0]) then Get(current, g)
              else Get(Persisted(b, c, Origin(c, recordId, doc, g[0])), g)
  {
    hide PutDoc, Carry;
    var effective := RuntimeDoc(c, recordId, doc);
    PutShowsCarry(b, c, recordId, doc, current, g);
    CarryBesideReads(effective, current, c.secretFields, g);
    SameMemberSamePath(effective, Origin(c, recordId, doc, g[0]), g);
    KeptGet(b, c, Carry(effective, current, c.secretFields), effective, g);
    KeptGet(b, c, effective, Origin(c, recordId, doc, g[0]), g);
  }

  /** A seeding restore inserts the version so, with no secrets; Mongo adds an `_id` where there is none. */
  lemma {:induction false} SeedWritesVersion(b: Backend, c: Coll, recordId: string, doc: Doc, freshId: Value, g: Path)
    requires g != []
    ensures Get(SeedDoc(b, c, recordId, doc, freshId), g) ==
              if b == Mongo && g[0] == "_id" && "_id" !in RuntimeDoc(c, recordId, doc)
              then Get(map["_id" := freshId], g)
              else Get(Persisted(b, c, Origin(c, recordId, doc, g[0])), g)
  {
    var effective := RuntimeDoc(c, recordId, doc);
    var source := Origin(c, recordId, doc, g[0]);
    SameMemberSamePath(effective, source, g);
    KeptGet(b, c, effective, source, g);
    var seeded := SeedDoc(b, c, recordId, doc, freshId);
    SameMemberSamePath(seeded, if b == Mongo && g[0] == "_id" && "_id" !in effective then map["_id" := freshId]
                               else Persisted(b, c, effective), g);
  }

  // ----- exactly when a put keeps every secret -----

  /** A put that leaves out `p` decides what is there: nothing that cfgit sets or Mongo protects. */
  predicate Losable(b: Backend, c: Coll, p: Path)
    requires p != []
  {
    if p[0] in Assigned(c, "") then b == Postgres && Get(Assigned(c, ""), p) == Null
    else b == Mongo ==> !Protected(c, p[0])
  }

  /** A secret at `q` brings the whole live value at `p`: it is `p`, or it lies above `p` in a
      member that cfgit sets and is empty there in every new document. */
  predicate Covers(c: Coll, q: Path, p: Path)
    requires q != []
  {
    q == p || (Above(q, p) && q[0] in Assigned(c, "") && Get(Assigned(c, ""), q) == Null)
  }

  predicate Covered(c: Coll, secrets: seq<string>, p: Path)
  {
    exists k | 0 <= k < |secrets| :: Covers(c, Split(secrets[k]), p)
  }

  /** No losable secret is listed only after one that lies below it. */
  predicate Ordered(b: Backend, c: Coll)
  {
    var secrets := c.secretFields;
    forall i, j | 0 <= i < j < |secrets| && Above(Split(secrets[j]), Split(secrets[i])) &&
                  Losable(b, c, Split(secrets[j])) ::
      Covered(c, secrets[..i], Split(secrets[j]))
  }

  lemma {:induction false} AssignedNull(c: Coll, recordId: string, p: Path)
    requires p != []
    ensures p[0] in Assigned(c, recordId) <==> p[0] in Assigned(c, "")
    ensures Get(Assigned(c, recordId), p) == Null <==> Get(Assigned(c, ""), p) == Null
  {
  }

  lemma {:induction false} FirstCover(c: Coll, secrets: seq<string>, p: Path, j: nat) returns (k: nat)
    requires j < |secrets| && Covers(c, Split(secrets[j]), p)
    ensures k <= j && Covers(c, Split(secrets[k]), p)
    ensures forall i | 0 <= i < k :: !Covers(c, Split(secrets[i]), p)
    decreases j
  {
    if i :| 0 <= i < j && Covers(c, Split(secrets[i]), p) {
      k := FirstCover(c, secrets, p, i);
    } else {
      k := j;
    }
  }

  lemma {:induction false} CoversUp(c: Coll, q: Path, r: Path, p: Path)
    requires q != [] && r != [] && Covers(c, q, r) && Covers(c, r, p)
    ensures Covers(c, q, p)
  {
    AboveAbove(q, r, p);
  }

  lemma CoverIsFirst(b: Backend, c: Coll, p: Path, k: nat)
    requires p != [] && Ordered(b, c) && Losable(b, c, p) && k < |c.secretFields|
    requires Covers(c, Split(c.secretFields[k]), p)
    requires forall i | 0 <= i < k :: !Covers(c, Split(c.secretFields[i]), p)
    ensures forall i | 0 <= i < k :: !Above(Split(c.secretFields[k]), Split(c.secretFields[i]))
  {
    var secrets, r := c.secretFields, Split(c.secretFields[k]);
    if i :| 0 <= i < k && Above(r, Split(secrets[i])) {
      assert r[0] == p[0];
      assert Losable(b, c, r);
      assert Covered(c, secrets[..i], r);
      var x :| 0 <= x < |secrets[..i]| && Covers(c, Split(secrets[..i][x]), r);
      CoversUp(c, Split(secrets[x]), r, p);
    }
  }

  lemma AboveAbove(q: Path, r: Path, p: Path)
    ensures Above(q, r) && Above(r, p) ==> Above(q, p)
  {
    if Above(q, r) && Above(r, p) {
      assert p[..|q|] == p[..|r|][..|q|];
    }
  }

  lemma {:induction false} SameUnder(d: Doc, e: Doc, r: Path, p: Path)
    requires r != [] && Above(r, p) && Get(d, r) == Get(e, r) != Null
    ensures Get(d, p) == Get(e, p)
    decreases r
  {
    assert p[0] == p[..|r|][0] == r[0];
    if |r| > 1 {
      assert p[1..][..|r| - 1] == p[..|r|][1..] == r[1..];
      SameUnder(d[r[0]].m, e[r[0]].m, r[1..], p[1..]);
    }
  }

  lemma {:induction false} OrderedCarries(b: Backend, c: Coll, recordId: string, doc: Doc, current: Doc, dotted: string)
    requires Ordered(b, c) && dotted in c.secretFields && Losable(b, c, Split(dotted))
    requires Carries(RuntimeDoc(c, recordId, doc), current, dotted)
    ensures Get(Carry(RuntimeDoc(c, recordId, doc), current, c.secretFields), Split(dotted)) == Get(current, Split(dotted))
  {
    var effective, p, secrets := RuntimeDoc(c, recordId, doc), Split(dotted), c.secretFields;
    var j :| 0 <= j < |secrets| && secrets[j] == dotted;
    var k := FirstCover(c, secrets, p, j);
    var r := Split(secrets[k]);
    CoverIsFirst(b, c, p, k);
    if r != p {
      AboveObject(current, r, p);
      AssignedNull(c, recordId, r);
      SameMemberSamePath(effective, Assigned(c, recordId), r);
    }
    FirstComesWhole(effective, current, secrets, k, r);
    if r != p {
      SameUnder(Carry(effective, current, secrets), current, r, p);
    }
  }

  lemma {:induction false} PutShowsCarry(b: Backend, c: Coll, recordId: string, doc: Doc, current: Doc, p: Path)
    requires p != []
    ensures var carried := Carry(RuntimeDoc(c, recordId, doc), current, c.secretFields);
            Get(PutDoc(b, c, recordId, current, doc), p) ==
              Get(Persisted(b, c, if b == Mongo && Protected(c, p[0]) then current else carried), p)
  {
    var put := PutDoc(b, c, recordId, current, doc);
    var carried := Carry(RuntimeDoc(c, recordId, doc), current, c.secretFields);
    SameMemberSamePath(put, Persisted(b, c, if b == Mongo && Protected(c, p[0]) then current else carried), p);
  }

  lemma OrderedKeeps(b: Backend, c: Coll, recordId: string, doc: Doc, current: Doc, dotted: string)
    requires Ordered(b, c) && Meets(b, c, recordId, current) && dotted in c.secretFields
    ensures Preserved(b, c, recordId, doc, current, dotted)
  {
    var effective, p := RuntimeDoc(c, recordId, doc), Split(dotted);
    if Carries(effective, current, dotted) {
      PutShowsCarry(b, c, recordId, doc, current, p);
      AssignedNull(c, recordId, p);
      if p[0] in Assigned(c, recordId) {
        SameMemberSamePath(effective, Assigned(c, recordId), p);
        if b == Mongo {
          SameMemberSamePath(effective, current, p);
        }
      }
      if !(b == Mongo && Protected(c, p[0])) {
        OrderedCarries(b, c, recordId, doc, current, dotted);
        KeptGet(b, c, Carry(effective, current, c.secretFields), current, p);
      }
    }
  }

  // ----- a child first can lose part of its parent -----

  lemma {:induction false} SegmentsAreShort(s: string, sep: char)
    ensures forall part | part in SplitOn(s, sep) :: |part| <= |s|
  {
    if s != "" {
      SegmentsAreShort(s[1..], sep);
    }
  }

  /** A key that is no segment of any secret. */
  function FreshKey(secrets: seq<string>): (key: string)
    ensures key != "" && forall i | 0 <= i < |key| :: key[i] == 'x'
    ensures forall dotted | dotted in secrets :: |dotted| < |key|
  {
    if secrets == [] then "x"
    else
      var key := FreshKey(secrets[1..]);
      if |secrets[0]| < |key| then key else seq(|secrets[0]| + 1, _ => 'x')
  }

  lemma {:induction false} FreshKeyIsFresh(secrets: seq<string>, dotted: string)
    requires dotted in secrets
    ensures FreshKey(secrets) !in Split(dotted)
  {
    SegmentsAreShort(dotted, '.');
  }

  lemma {:induction false} SetBeside(d: Doc, q: Path, v: Value, k: string)
    requires q != [] && q[0] != k
    ensures Get(Set(d, q, v), [k]) == Get(d, [k])
  {
  }

  lemma {:induction false} CarryMissesHere(d: Doc, q: Path, v: Value, k: string, key: string)
    requires q != [] && q != [k] && key !in q && v != Null && Get(d, [k, key]) == Null
    ensures Get(Set(d, q, v), [k, key]) == Null
    ensures Get(d, [k]) != Null || Above([k], q) ==> Get(Set(d, q, v), [k]) != Null
  {
    assert [k, key][1..] == [key];
    if q[0] == k {
      assert q[1] in q;
      SetBeside(if k in d && d[k].Obj? then d[k].m else map[], q[1..], v, key);
    }
  }

  /** A carry beside or below `p` does not reach a member that no secret names. */
  lemma {:induction false} CarryMisses(d: Doc, q: Path, v: Value, p: Path, key: string)
    requires p != [] && q != [] && q != p && !Above(q, p) && key !in q && v != Null
    requires Get(d, p + [key]) == Null
    ensures Get(Set(d, q, v), p + [key]) == Null
    ensures Get(d, p) != Null || Above(p, q) ==> Get(Set(d, q, v), p) != Null
    decreases p
  {
    if |p| == 1 {
      assert p == [p[0]] && p + [key] == [p[0], key];
      CarryMissesHere(d, q, v, p[0], key);
    } else {
      assert (p + [key])[1..] == p[1..] + [key];
      if p[0] == q[0] {
        assert q == [q[0]] + q[1..] && p == [p[0]] + p[1..];
        CarryMisses(if p[0] in d && d[p[0]].Obj? then d[p[0]].m else map[], q[1..], v, p[1..], key);
        if Above(p, q) {
          assert q[1..][..|p| - 1] == p[1..];
        }
      }
    }
  }

  lemma {:induction false} AboveObject(d: Doc, q: Path, p: Path)
    requires q != [] && Above(q, p)
    ensures HasParent(d, p) ==> Get(d, q) != Null
    ensures Get(d, p) != Null ==> Get(d, q) != Null
    decreases q
  {
    assert p[0] == p[..|q|][0] == q[0];
    if |q| > 1 {
      assert q[1..] == p[1..][..|q| - 1];
      if p[0] in d && d[p[0]].Obj? {
        AboveObject(d[p[0]].m, q[1..], p[1..]);
      }
    }
  }

  /** Nothing that is carried before the secret below `p` is at `p`, or empty above it. */
  ghost predicate ClearBefore(effective: Doc, secrets: seq<string>, p: Path, i: nat)
    requires i <= |secrets|
  {
    forall k | 0 <= k < i ::
      Split(secrets[k]) != p && (Above(Split(secrets[k]), p) ==> Get(effective, Split(secrets[k])) != Null)
  }

  /** Once something is at `p`, or something below it is carried before `p` itself, the rest of
      the live value at `p` is never carried. */
  lemma {:induction false} RestIsLost(effective: Doc, current: Doc, secrets: seq<string>, p: Path, key: string, i: nat)
    requires p != [] && Get(effective, p + [key]) == Null
    requires forall dotted | dotted in secrets :: key !in Split(dotted)
    requires Get(effective, p) != Null ||
             (i < |secrets| && Above(p, Split(secrets[i])) && Get(current, Split(secrets[i])) != Null &&
              ClearBefore(effective, secrets, p, i))
    ensures Get(Carry(effective, current, secrets), p + [key]) == Null
    decreases secrets
  {
    if secrets != [] {
      var q, v := Split(secrets[0]), Get(current, Split(secrets[0]));
      var next := CarryOne(effective, current, secrets[0]);
      assert secrets[0] in secrets && forall dotted | dotted in secrets[1..] :: dotted in secrets;
      if Carries(effective, current, secrets[0]) {
        if Above(q, p) {
          AboveObject(effective, q, p);
        }
        CarryMisses(effective, q, v, p, key);
      } else if Above(p, q) {
        AboveObject(effective, p, q);
      }
      if Get(next, p) == Null {
        ClearAfter(effective, current, secrets, p, i);
        RestIsLost(next, current, secrets[1..], p, key, i - 1);
      } else {
        RestIsLost(next, current, secrets[1..], p, key, 0);
      }
    }
  }

  lemma ClearAfter(effective: Doc, current: Doc, secrets: seq<string>, p: Path, i: nat)
    requires 0 < i <= |secrets| && ClearBefore(effective, secrets, p, i)
    ensures ClearBefore(CarryOne(effective, current, secrets[0]), secrets[1..], p, i - 1)
  {
    var q, next := Split(secrets[0]), CarryOne(effective, current, secrets[0]);
    forall k | 0 <= k < i - 1 && Above(Split(secrets[1..][k]), p)
      ensures Get(next, Split(secrets[1..][k])) != Null
    {
      assert secrets[1..][k] == secrets[k + 1];
      if Carries(effective, current, secrets[0]) {
        SetGrowsShape(effective, q, Get(current, q), Split(secrets[k + 1]));
      }
    }
    forall k | 0 <= k < i - 1 ensures Split(secrets[1..][k]) != p {
      assert secrets[1..][k] == secrets[k + 1];
    }
  }

  lemma {:induction false} SameBelow(d: Doc, e: Doc, p: Path, k: string)
    requires p != [] && Get(d, p) == Get(e, p) != Null
    ensures Get(d, p + [k]) == Get(e, p + [k])
  {
    assert (p + [k])[..|p|] == p;
    SameUnder(d, e, p, p + [k]);
  }

  /** An empty document but for the objects on the way to `p`. */
  function Scaffold(p: Path): (d: Doc)
    requires p != []
    ensures HasParent(d, p) && Get(d, p) == Null && forall k | k in d :: k == p[0]
    decreases p
  {
    if |p| == 1 then map[] else map[p[0] := Obj(Scaffold(p[1..]))]
  }

  lemma {:induction false} NullBelow(d: Doc, p: Path, k: string)
    requires p != [] && Get(d, p) == Null
    ensures Get(d, p + [k]) == Null
    decreases p
  {
    assert (p + [k])[1..] == p[1..] + [k];
    if |p| > 1 && p[0] in d && d[p[0]].Obj? {
      NullBelow(d[p[0]].m, p[1..], k);
    }
  }

  lemma {:induction false} StaysBeside(d: Doc, q: Path, g: Path, n: nat)
    requires n < |q| && n < |g| && q[..n] == g[..n] && q[n] != g[n] && Get(d, q) != Null
    ensures Get(Set(d, g, Bool(true)), q) == Get(d, q)
    decreases n
  {
    if n > 0 {
      assert q[0] == q[..n][0] == g[..n][0] == g[0];
      assert q[1..][..n - 1] == q[..n][1..] && g[1..][..n - 1] == g[..n][1..];
      StaysBeside(d[q[0]].m, q[1..], g[1..], n - 1);
    }
  }

  /** `base` with something at `q` and something beside it, both below `p`. */
  function BothSet(base: Doc, p: Path, q: Path, key: string): Doc
    requires q != []
  {
    Set(Set(base, q, Bool(true)), p + [key], Bool(true))
  }

  lemma {:induction false} BothAreThere(base: Doc, p: Path, q: Path, key: string)
    requires p != [] && Above(p, q) && key !in q
    ensures var both := BothSet(base, p, q, key);
            && Get(both, q) != Null && Get(both, p) != Null && Get(both, p + [key]) != Null
            && forall k | k != p[0] :: (k in both <==> k in base) && (k in both ==> both[k] == base[k])
  {
    var g := p + [key];
    var one := Set(base, q, Bool(true));
    GetOfSet(base, q, Bool(true));
    GetOfSet(one, g, Bool(true));
    assert Above(p, g);
    AboveObject(Set(one, g, Bool(true)), p, g);
    assert q[|p|] in q && g[|p|] == key;
    StaysBeside(one, q, g, |p|);
    assert q[0] == q[..|p|][0] == p[0];
    forall k | k != p[0] ensures (k in one <==> k in base) && (k in one ==> one[k] == base[k]) {
      SetElsewhere(base, q, Bool(true), k);
    }
    forall k | k != p[0]
      ensures var both := BothSet(base, p, q, key); (k in both <==> k in one) && (k in both ==> both[k] == one[k])
    {
      SetElsewhere(one, g, Bool(true), k);
    }
  }

  /** The new document and the live one that show what a wrong order loses. */
  lemma Witness(b: Backend, c: Coll, i: nat, j: nat) returns (doc: Doc, current: Doc)
    requires i < j < |c.secretFields|
    requires var p := Split(c.secretFields[j]);
             Above(p, Split(c.secretFields[i])) && Losable(b, c, p) && !Covered(c, c.secretFields[..i], p)
    ensures Meets(b, c, "", current)
    ensures var p, q, effective := Split(c.secretFields[j]), Split(c.secretFields[i]), RuntimeDoc(c, "", doc);
            && Get(effective, p) == Null && ClearBefore(effective, c.secretFields, p, i)
            && Get(current, p) != Null && Get(current, q) != Null
            && Get(current, p + [FreshKey(c.secretFields)]) != Null
  {
    var secrets, p, q := c.secretFields, Split(c.secretFields[j]), Split(c.secretFields[i]);
    var key, fixedMembers := FreshKey(c.secretFields), Assigned(c, "");
    FreshKeyIsFresh(secrets, secrets[i]);
    if p[0] in fixedMembers {
      doc, current := map[], BothSet(map[], p, q, key);
      BothAreThere(map[], p, q, key);
      SameMemberSamePath(RuntimeDoc(c, "", doc), fixedMembers, p);
    } else {
      doc, current := Scaffold(p), BothSet(fixedMembers, p, q, key);
      BothAreThere(fixedMembers, p, q, key);
      SameMemberSamePath(RuntimeDoc(c, "", doc), doc, p);
    }
    WitnessIsClear(c, doc, p, i);
  }

  lemma {:induction false} WitnessIsClear(c: Coll, doc: Doc, p: Path, i: nat)
    requires p != [] && i <= |c.secretFields| && !Covered(c, c.secretFields[..i], p)
    requires p[0] !in Assigned(c, "") ==> HasParent(doc, p)
    ensures ClearBefore(RuntimeDoc(c, "", doc), c.secretFields, p, i)
  {
    var secrets, effective, fixedMembers := c.secretFields, RuntimeDoc(c, "", doc), Assigned(c, "");
    forall k | 0 <= k < i
      ensures Split(secrets[k]) != p && (Above(Split(secrets[k]), p) ==> Get(effective, Split(secrets[k])) != Null)
    {
      var r := Split(secrets[k]);
      assert secrets[..i][k] == secrets[k] && !Covers(c, r, p);
      if Above(r, p) {
        assert p[0] == p[..|r|][0] == r[0];
        if p[0] in fixedMembers {
          SameMemberSamePath(effective, fixedMembers, r);
        } else {
          AboveObject(doc, r, p);
          SameMemberSamePath(effective, doc, r);
        }
      }
    }
  }

  lemma ChildFirstLoses(b: Backend, c: Coll, i: nat, j: nat)
    requires i < j < |c.secretFields|
    requires var p := Split(c.secretFields[j]);
             Above(p, Split(c.secretFields[i])) && Losable(b, c, p) && !Covered(c, c.secretFields[..i], p)
    ensures !KeepsSecrets(b, c)
  {
    hide PutDoc, Carry, Found;
    var secrets, p := c.secretFields, Split(c.secretFields[j]);
    var key := FreshKey(secrets);
    var doc, current := Witness(b, c, i, j);
    var effective := RuntimeDoc(c, "", doc);
    forall dotted | dotted in secrets ensures key !in Split(dotted) {
      FreshKeyIsFresh(secrets, dotted);
    }
    NullBelow(effective, p, key);
    RestIsLost(effective, current, secrets, p, key, i);
    PutShowsCarry(b, c, "", doc, current, p);
    if Preserved(b, c, "", doc, current, secrets[j]) {
      LosableShowsCarry(b, c, p);
      KeptGet(b, c, current, current, p);
      SameBelow(Persisted(b, c, Carry(effective, current, secrets)), Persisted(b, c, current), p, key);
      KeptGet(b, c, Carry(effective, current, secrets), current, p + [key]);
      KeptGet(b, c, current, current, p + [key]);
    }
    assert !Preserved(b, c, "", doc, current, secrets[j]);
  }

  lemma LosableShowsCarry(b: Backend, c: Coll, p: Path)
    requires p != [] && Losable(b, c, p)
    ensures !(b == Mongo && Protected(c, p[0]))
  {
  }

  /** For all new documents and all live documents it can meet, a put keeps every secret the new one
      leaves out, exactly when no losable secret field is listed only after one that lies below it. */
  lemma KeepsSecretsIff(b: Backend, c: Coll)
    ensures KeepsSecrets(b, c) <==> Ordered(b, c)
  {
    if Ordered(b, c) {
      forall recordId: string, doc: Doc, current: Doc, dotted: string
          | Meets(b, c, recordId, current) && dotted in c.secretFields
        ensures Preserved(b, c, recordId, doc, current, dotted)
      {
        OrderedKeeps(b, c, recordId, doc, current, dotted);
      }
    } else {
      var secrets := c.secretFields;
      var i, j :| 0 <= i < j < |secrets| && Above(Split(secrets[j]), Split(secrets[i])) &&
                  Losable(b, c, Split(secrets[j])) && !Covered(c, secrets[..i], Split(secrets[j]));
      ChildFirstLoses(b, c, i, j);
    }
  }

  lemma {:induction false} CarryTwo(effective: Doc, current: Doc, first: string, second: string)
    ensures Carry(effective, current, [first, second]) == CarryOne(CarryOne(effective, current, first), current, second)
  {
    hide CarryOne;
    assert [first, second][1..] == [second] && [second][1..] == [];
    assert Carry(CarryOne(effective, current, first), current, [second]) ==
           Carry(CarryOne(CarryOne(effective, current, first), current, second), current, []);
  }

  /** A collection that lists `auth.key` before `auth`. */
  function AuthColl(lib: Lib): Coll
  {
    Coll(lib, "id", map[], ["_id"], [], [], [Join(["auth", "key"]), Join(["auth"])])
  }

  lemma {:induction false} AuthIsCarried(lib: Lib, doc: Doc, current: Doc)
    requires doc == map["id" := Str("alpha")]
    requires current == map["id" := Str("alpha"), "auth" := Obj(map["key" := Str("k"), "realm" := Str("r")])]
    ensures RuntimeDoc(AuthColl(lib), "alpha", doc) == doc
    ensures Carry(doc, current, AuthColl(lib).secretFields) == doc["auth" := Obj(map["key" := Str("k")])]
  {
    hide Carry, Join, Split;
    SplitJoin(["auth", "key"]);
    SplitJoin(["auth"]);
    CarryTwo(doc, current, Join(["auth", "key"]), Join(["auth"]));
    var p := ["auth", "key"];
    assert p[1..] == ["key"];
    assert Get(doc, p) == Null && Get(current, p) == Get(current["auth"].m, ["key"]) == Str("k");
    var one := CarryOne(doc, current, Join(p));
    assert one == Set(doc, p, Str("k")) == doc["auth" := Obj(Set(map[], ["key"], Str("k")))];
    assert Get(one, ["auth"]) != Null;
  }

  /** Concrete input: writing a version that leaves `auth` out loses the members of `auth` other than
      the key, on either backend. */
  lemma {:induction false} ChildFirstExample(b: Backend, lib: Lib, doc: Doc, current: Doc)
    requires doc == map["id" := Str("alpha")]
    requires current == map["id" := Str("alpha"), "auth" := Obj(map["key" := Str("k"), "realm" := Str("r")])]
    ensures Get(PutDoc(b, AuthColl(lib), "alpha", current, doc), ["auth"]) == Obj(map["key" := Str("k")])
    ensures Found(AuthColl(lib), "alpha", current)
  {
    hide Carry, PutDoc;
    AuthIsCarried(lib, doc, current);
    var carried := doc["auth" := Obj(map["key" := Str("k")])];
    PutShowsCarry(b, AuthColl(lib), "alpha", doc, current, ["auth"]);
    SavedGet(lib, JsonColumn, carried, ["auth"]);
    JsonSurvives(lib, JsonColumn, carried["auth"]);
  }
}
