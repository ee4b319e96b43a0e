/** What a live document becomes when cfgit writes a version over it, and when that write
    leaves a document with the very hash of the version. */
module Runtime {
  import opened Documents
  import opened Hashing
  import opened Conversions

  datatype Backend = Mongo | Postgres

  /** The members cfgit sets on every live document: the id, then the `live_when` values. */
  function Assigned(c: Coll, recordId: string): Doc
  {
    map[c.idField := Str(recordId)] + c.liveWhen
  }

  function RuntimeDoc(c: Coll, recordId: string, doc: Doc): Doc
  {
    doc + Assigned(c, recordId)
  }

  /** The secret at `dotted` is absent from the new document and present in the live one. */
  predicate Carries(effective: Doc, current: Doc, dotted: string)
  {
    Get(effective, Split(dotted)) == Null && Get(current, Split(dotted)) != Null
  }

  function CarryOne(effective: Doc, current: Doc, dotted: string): Doc
  {
    if Carries(effective, current, dotted)
    then Set(effective, Split(dotted), Get(current, Split(dotted)))
    else effective
  }

  function Carry(effective: Doc, current: Doc, secrets: seq<string>): Doc
    decreases secrets
  {
    if secrets == [] then effective
    else Carry(CarryOne(effective, current, secrets[0]), current, secrets[1..])
  }

  /** Members a Mongo write leaves alone. */
  predicate Protected(c: Coll, key: string)
  {
    key == "_id" || key in c.ignoreFields
  }

  /** What the backend keeps of a document: Postgres writes it as JSON. */
  function Persisted(b: Backend, c: Coll, d: Doc): Doc
  {
    if b == Postgres then SavedDoc(c.lib, JsonColumn, d) else d
  }

  /** The live document after a put: Mongo sets and unsets unprotected members,
      Postgres replaces the whole document. */
  function PutDoc(b: Backend, c: Coll, recordId: string, current: Doc, doc: Doc): Doc
  {
    var effective := Carry(RuntimeDoc(c, recordId, doc), current, c.secretFields);
    match b
    case Postgres => Persisted(b, c, effective)
    case Mongo =>
      (map k | k in current && Protected(c, k) :: current[k]) +
      (map k | k in effective && !Protected(c, k) :: effective[k])
  }

  /** The live document a seeding restore inserts; Mongo adds an `_id` where there is none. */
  function SeedDoc(b: Backend, c: Coll, recordId: string, doc: Doc, freshId: Value): Doc
  {
    var effective := Persisted(b, c, RuntimeDoc(c, recordId, doc));
    if b == Mongo && "_id" !in effective then effective["_id" := freshId] else effective
  }

  method PutRecord(b: Backend, c: Coll, recordId: string, current: Doc, doc: Doc) returns (live: Doc)
    ensures live == PutDoc(b, c, recordId, current, doc)
  {
    var effective := RuntimeDoc(c, recordId, doc);
    for i := 0 to |c.secretFields|
      invariant Carry(effective, current, c.secretFields[i..]) ==
                Carry(RuntimeDoc(c, recordId, doc), current, c.secretFields)
    {
      var path := Split(c.secretFields[i]);
      if Get(effective, path) == Null {
        var secret := Get(current, path);
        if secret != Null {
          effective := Set(effective, path, secret);
        }
      }
    }
    if b == Postgres {
      return SavedDoc(c.lib, JsonColumn, effective);
    }
    var setDoc := map k | k in effective && !Protected(c, k) :: effective[k];
    var unset := set k | k in current && !Protected(c, k) && k !in effective;
    live := (current - unset) + setDoc;
  }

  // ----- which writes the hash can see -----

  /** Stripping hides everything at `g`. */
  ghost predicate Hidden(c: Coll, g: Path)
    requires g != []
  {
    c.Ignored(g[0]) || exists dotted :: HiddenBy(c, dotted, g)
  }

  ghost predicate HiddenBy(c: Coll, dotted: string, g: Path)
  {
    (dotted in c.ignorePaths || dotted in c.secretFields) &&
    NonEmpty(Split(dotted)) != [] && NonEmpty(Split(dotted)) <= g
  }

  /** Where a write at `p` first changes `d`: the end of `p`, or the first step that is not
      an object and therefore gets created. */
  function Gap(d: Doc, p: Path): (g: Path)
    requires p != []
    ensures g != [] && g <= p
    decreases p
  {
    if |p| > 1 && p[0] in d && d[p[0]].Obj? then [p[0]] + Gap(d[p[0]].m, p[1..]) else [p[0]]
  }

  /** Every secret that has to be carried over lands where the hash does not look. */
  ghost predicate CarrySafe(c: Coll, effective: Doc, current: Doc, secrets: seq<string>)
    decreases secrets
  {
    secrets == [] ||
    ((Carries(effective, current, secrets[0]) ==> Hidden(c, Gap(effective, Split(secrets[0])))) &&
     CarrySafe(c, CarryOne(effective, current, secrets[0]), current, secrets[1..]))
  }

  /** In particular when its parent object is there. */
  lemma {:induction false} ParentsAreEnough(c: Coll, effective: Doc, current: Doc, dotted: string)
    requires dotted in c.secretFields && "" !in Split(dotted)
    requires HasParent(effective, Split(dotted))
    ensures Hidden(c, Gap(effective, Split(dotted)))
  {
    var p := Split(dotted);
    NonEmptyPlain(p);
    GapAtEnd(effective, p);
    assert HiddenBy(c, dotted, p);
  }

  lemma {:induction false} GapAtEnd(d: Doc, p: Path)
    requires p != [] && HasParent(d, p)
    ensures Gap(d, p) == p
    decreases p
  {
    if |p| > 1 {
      GapAtEnd(d[p[0]].m, p[1..]);
      assert [p[0]] + p[1..] == p;
    }
  }

  lemma {:induction false} DropHidesSet(d: Doc, p: Path, v: Value, q: Path)
    requires p != [] && q != [] && q <= Gap(d, p)
    ensures Drop(Set(d, p, v), q) == Drop(d, q)
    decreases p
  {
    if |q| > 1 {
      assert q[1..] <= Gap(d, p)[1..];
      DropHidesSet(d[p[0]].m, p[1..], v, q[1..]);
    }
  }

  lemma {:induction false} HiddenSet(c: Coll, d: Doc, p: Path, v: Value)
    requires p != [] && Hidden(c, Gap(d, p))
    ensures Strip(c, Set(d, p, v)) == Strip(c, d)
  {
    if c.Ignored(p[0]) {
      assert RemoveIgnored(c, Set(d, p, v)) == RemoveIgnored(c, d);
    } else {
      var dotted :| HiddenBy(c, dotted, Gap(d, p));
      DropHidesSet(d, p, v, NonEmpty(Split(dotted)));
      StripAbsorbs(c, Set(d, p, v), dotted);
      StripAbsorbs(c, d, dotted);
    }
  }

  /** 0 for null or absent, 2 for an object, 1 for anything else. */
  function Shape(d: Doc, g: Path): nat
    requires g != []
  {
    match Get(d, g)
    case Null => 0
    case Obj(_) => 2
    case _ => 1
  }

  lemma {:induction false} DropKeepsShape(d: Doc, q: Path, g: Path)
    requires g != [] && (q == [] || !(q <= g))
    ensures Shape(Drop(d, q), g) == Shape(d, g)
    decreases q
  {
    if |q| > 1 && q[0] == g[0] && |g| > 1 && g[0] in d && d[g[0]].Obj? {
      assert q == [q[0]] + q[1..] && g == [g[0]] + g[1..];
      DropKeepsShape(d[g[0]].m, q[1..], g[1..]);
    }
  }

  lemma {:induction false} DropAllKeepsShape(d: Doc, ps: seq<string>, g: Path)
    requires g != []
    requires forall dotted | dotted in ps :: NonEmpty(Split(dotted)) == [] || !(NonEmpty(Split(dotted)) <= g)
    ensures Shape(DropAll(d, ps), g) == Shape(d, g)
  {
    if ps != [] {
      DropKeepsShape(d, NonEmpty(Split(ps[0])), g);
      DropAllKeepsShape(DropDotted(d, ps[0]), ps[1..], g);
    }
  }

  lemma StripKeepsShape(c: Coll, d: Doc, g: Path)
    requires g != [] && !Hidden(c, g)
    ensures Shape(Strip(c, d), g) == Shape(d, g)
  {
    var kept := RemoveIgnored(c, d);
    forall dotted | dotted in c.ignorePaths || dotted in c.secretFields
      ensures NonEmpty(Split(dotted)) == [] || !(NonEmpty(Split(dotted)) <= g)
    {
      assert !HiddenBy(c, dotted, g);
    }
    DropAllKeepsShape(kept, c.ignorePaths, g);
    DropAllKeepsShape(DropAll(kept, c.ignorePaths), c.secretFields, g);
  }

  /** The normal tree determines the shape at every path. */
  lemma {:induction false} NormalShape(lib: Lib, d: Doc, e: Doc, g: Path)
    requires g != []
    requires Normalize(lib, Obj(d)).Some? && Normalize(lib, Obj(d)) == Normalize(lib, Obj(e))
    ensures Shape(d, g) == Shape(e, g)
    decreases g
  {
    var t := Normalize(lib, Obj(d)).value;
    var k := g[0];
    assert k in t.m <==> k in d && d[k] != Null;
    assert k in t.m <==> k in e && e[k] != Null;
    if k in t.m {
      assert Normalize(lib, d[k]) == Some(t.m[k]) == Normalize(lib, e[k]);
      if |g| > 1 && d[k].Obj? {
        NormalShape(lib, d[k].m, e[k].m, g[1..]);
      }
    }
  }

  /** Carrying a secret over never takes anything away, and adds something at the gap. */
  lemma {:induction false} SetGrowsShape(d: Doc, p: Path, v: Value, g: Path)
    requires p != [] && g != [] && Get(d, p) == Null && v != Null
    ensures Shape(Set(d, p, v), g) >= Shape(d, g)
    ensures g == Gap(d, p) ==> Shape(Set(d, p, v), g) > Shape(d, g)
    decreases p
  {
    if |p| > 1 && |g| > 1 && p[0] == g[0] && p[0] in d && d[p[0]].Obj? {
      SetGrowsShape(d[p[0]].m, p[1..], v, g[1..]);
    }
  }

  lemma {:induction false} CarryGrowsShape(effective: Doc, current: Doc, secrets: seq<string>, g: Path)
    requires g != []
    ensures Shape(Carry(effective, current, secrets), g) >= Shape(effective, g)
    decreases secrets
  {
    if secrets != [] {
      var p := Split(secrets[0]);
      if Carries(effective, current, secrets[0]) {
        SetGrowsShape(effective, p, Get(current, p), g);
      }
      CarryGrowsShape(CarryOne(effective, current, secrets[0]), current, secrets[1..], g);
    }
  }

  lemma {:induction false} SafeCarryIsUnseen(c: Coll, effective: Doc, current: Doc, secrets: seq<string>)
    requires CarrySafe(c, effective, current, secrets)
    ensures Strip(c, Carry(effective, current, secrets)) == Strip(c, effective)
    decreases secrets
  {
    if secrets != [] {
      var p := Split(secrets[0]);
      if Carries(effective, current, secrets[0]) {
        HiddenSet(c, effective, p, Get(current, p));
      }
      SafeCarryIsUnseen(c, CarryOne(effective, current, secrets[0]), current, secrets[1..]);
    }
  }

  lemma {:induction false} UnsafeCarryIsSeen(c: Coll, effective: Doc, current: Doc, secrets: seq<string>)
    requires !CarrySafe(c, effective, current, secrets)
    ensures exists g: Path :: g != [] && !Hidden(c, g) &&
              Shape(Carry(effective, current, secrets), g) > Shape(effective, g)
    decreases secrets
  {
    var p := Split(secrets[0]);
    var next := CarryOne(effective, current, secrets[0]);
    if Carries(effective, current, secrets[0]) && !Hidden(c, Gap(effective, p)) {
      var g := Gap(effective, p);
      SetGrowsShape(effective, p, Get(current, p), g);
      CarryGrowsShape(next, current, secrets[1..], g);
    } else {
      UnsafeCarryIsSeen(c, next, current, secrets[1..]);
      var g: Path :| g != [] && !Hidden(c, g) && Shape(Carry(next, current, secrets[1..]), g) > Shape(next, g);
      CarryGrowsShape(effective, current, secrets[..1], g);
    }
  }

  /** What a backend keeps has the same shapes. */
  lemma {:induction false} KeptShape(b: Backend, c: Coll, d: Doc, g: Path)
    requires g != []
    ensures Shape(Persisted(b, c, d), g) == Shape(d, g)
  {
    SavedGet(c.lib, JsonColumn, d, g);
  }

  lemma {:induction false} KeptGet(b: Backend, c: Coll, d: Doc, e: Doc, g: Path)
    requires g != []
    ensures Get(Persisted(b, c, d), g) == Null <==> Get(d, g) == Null
    ensures Get(d, g) == Get(e, g) ==> Get(Persisted(b, c, d), g) == Get(Persisted(b, c, e), g)
  {
    SavedGet(c.lib, JsonColumn, d, g);
    SavedGet(c.lib, JsonColumn, e, g);
  }

  lemma KeptStrip(b: Backend, c: Coll, d: Doc)
    ensures Strip(c, Persisted(b, c, d)) == Persisted(b, c, Strip(c, d))
    ensures HashDoc(c, Persisted(b, c, d)).Some? <==> HashDoc(c, d).Some?
  {
    SavedStrip(c, JsonColumn, d);
    SavedKeepsHashIff(c, JsonColumn, d);
  }

  /** Documents with a different shape where the hash looks have different hashes. */
  lemma ShapeIsSeen(c: Coll, d: Doc, e: Doc, g: Path)
    requires g != [] && !Hidden(c, g) && Shape(d, g) != Shape(e, g) && HashDoc(c, e).Some?
    ensures HashDoc(c, d) != HashDoc(c, e)
  {
    hide Hidden;
    StripKeepsShape(c, d, g);
    StripKeepsShape(c, e, g);
    OidIdentifiesNormalForm(c, d, e);
    if NormalForm(c, d) == NormalForm(c, e) {
      NormalShape(c.lib, Strip(c, d), Strip(c, e), g);
    }
  }

  lemma SameStripSameHash(c: Coll, d: Doc, e: Doc)
    requires Strip(c, d) == Strip(c, e)
    ensures HashDoc(c, d) == HashDoc(c, e)
  {
  }

  /** Carrying the secrets over keeps the hash of what the backend keeps exactly when the carry is
      safe. */
  lemma {:induction false} CarryKeepsHashIff(b: Backend, c: Coll, effective: Doc, current: Doc, secrets: seq<string>)
    requires HashDoc(c, effective).Some?
    ensures HashDoc(c, Persisted(b, c, Carry(effective, current, secrets))) == HashDoc(c, Persisted(b, c, effective))
            <==> CarrySafe(c, effective, current, secrets)
  {
    hide HashDoc, Hidden, Persisted, CarrySafe;
    var carried := Carry(effective, current, secrets);
    KeptStrip(b, c, effective);
    KeptStrip(b, c, carried);
    if CarrySafe(c, effective, current, secrets) {
      SafeCarryIsUnseen(c, effective, current, secrets);
      SameStripSameHash(c, Persisted(b, c, carried), Persisted(b, c, effective));
    } else {
      UnsafeCarryIsSeen(c, effective, current, secrets);
      var g: Path :| g != [] && !Hidden(c, g) && Shape(carried, g) > Shape(effective, g);
      KeptShape(b, c, carried, g);
      KeptShape(b, c, effective, g);
      ShapeIsSeen(c, Persisted(b, c, carried), Persisted(b, c, effective), g);
    }
  }

  // ----- cfgit never causes drift -----

  /** On every member that cfgit sets, the hash sees the same in the document as in what is kept of
      what is set: the record id, the `live_when` values. A null value may be left out. On Postgres,
      everything else that is hashed survives as JSON. */
  ghost predicate Settled(b: Backend, c: Coll, recordId: string, doc: Doc)
  {
    var fixedMembers := Assigned(c, recordId);
    && (forall k | k in fixedMembers :: NormalForm(c, Only(doc, k)) == NormalForm(c, Only(Persisted(b, c, fixedMembers), k)))
    && (b == Postgres ==> Survives(c.lib, JsonColumn, Obj(Strip(c, doc - fixedMembers.Keys))))
  }

  /** In particular when it has the very values, or they are ignored, and is JSON on Postgres. */
  lemma SettledByValue(b: Backend, c: Coll, recordId: string, doc: Doc)
    requires forall k | k in Assigned(c, recordId) :: c.Ignored(k) || (k in doc && doc[k] == Assigned(c, recordId)[k])
    requires b == Postgres ==> forall k | k in doc :: JsonValue(doc[k])
    ensures Settled(b, c, recordId, doc)
  {
    var fixedMembers := Assigned(c, recordId);
    var kept := Persisted(b, c, fixedMembers);
    forall k | k in fixedMembers ensures NormalForm(c, Only(doc, k)) == NormalForm(c, Only(kept, k)) {
      if c.Ignored(k) {
        assert RemoveIgnored(c, Only(doc, k)) == map[] == RemoveIgnored(c, Only(kept, k));
      } else {
        if b == Postgres {
          JsonSurvives(c.lib, JsonColumn, doc[k]);
        }
        assert Only(doc, k) == Only(kept, k);
      }
    }
    if b == Postgres {
      JsonStays(c, doc - fixedMembers.Keys);
    }
  }

  /** Documents of JSON values survive as JSON. */
  lemma JsonStays(c: Coll, d: Doc)
    requires forall k | k in d :: JsonValue(d[k])
    ensures Survives(c.lib, JsonColumn, Obj(Strip(c, d)))
  {
    JsonSurvives(c.lib, JsonColumn, Obj(d));
    StripSurvives(c, d);
  }

  lemma {:induction false} DropSurvives(lib: Lib, d: Doc, p: Path)
    requires Survives(lib, JsonColumn, Obj(d))
    ensures Survives(lib, JsonColumn, Obj(Drop(d, p)))
    decreases p
  {
    if |p| > 1 && p[0] in d && d[p[0]].Obj? {
      DropSurvives(lib, d[p[0]].m, p[1..]);
    }
  }

  lemma {:induction false} DropAllSurvives(lib: Lib, d: Doc, ps: seq<string>)
    requires Survives(lib, JsonColumn, Obj(d))
    ensures Survives(lib, JsonColumn, Obj(DropAll(d, ps)))
  {
    if ps != [] {
      DropSurvives(lib, d, NonEmpty(Split(ps[0])));
      DropAllSurvives(lib, DropDotted(d, ps[0]), ps[1..]);
    }
  }

  lemma StripSurvives(c: Coll, d: Doc)
    requires Survives(c.lib, JsonColumn, Obj(d))
    ensures Survives(c.lib, JsonColumn, Obj(Strip(c, d)))
  {
    var kept := RemoveIgnored(c, d);
    DropAllSurvives(c.lib, kept, c.ignorePaths);
    DropAllSurvives(c.lib, DropAll(kept, c.ignorePaths), c.secretFields);
  }

  lemma {:induction false} DropAllNone(ps: seq<string>)
    ensures DropAll(map[], ps) == map[]
  {
    if ps != [] {
      assert DropDotted(map[], ps[0]) == map[];
      DropAllNone(ps[1..]);
    }
  }

  lemma StripAddsNothing(c: Coll, d: Doc, k: string)
    requires k !in d
    ensures Only(Strip(c, d), k) == map[]
    ensures Survives(c.lib, JsonColumn, Obj(Only(Strip(c, d), k)))
  {
    OnlyStrip(c, d, k);
    assert RemoveIgnored(c, Only(d, k)) == map[];
    DropAllNone(c.ignorePaths);
    DropAllNone(c.secretFields);
  }

  lemma MemberIsHashed(c: Coll, d: Doc, k: string)
    requires NormalForm(c, d).Some?
    ensures NormalForm(c, Only(d, k)).Some?
  {
    OnlyStrip(c, d, k);
    OnlyNormal(c.lib, Strip(c, d), k);
  }

  /** What is kept of one more member is seen as it was exactly when it survives. */
  lemma KeptMember(c: Coll, d: Doc, k: string)
    ensures var one := Only(d, k);
            && (Survives(c.lib, JsonColumn, Obj(Only(Strip(c, d), k))) ==>
                  NormalForm(c, one) == NormalForm(c, SavedDoc(c.lib, JsonColumn, one)))
            && (NormalForm(c, one).Some? && NormalForm(c, one) == NormalForm(c, SavedDoc(c.lib, JsonColumn, one)) ==>
                  Survives(c.lib, JsonColumn, Obj(Only(Strip(c, d), k))))
  {
    OnlyStrip(c, d, k);
    SavedKeepsHashIff(c, JsonColumn, Only(d, k));
    OidIdentifiesNormalForm(c, Only(d, k), SavedDoc(c.lib, JsonColumn, Only(d, k)));
  }

  /** The members of what is kept: those that cfgit sets, and those of the document. */
  lemma KeptMembers(b: Backend, c: Coll, recordId: string, doc: Doc, k: string)
    ensures var fixedMembers := Assigned(c, recordId);
            Only(Persisted(b, c, RuntimeDoc(c, recordId, doc)), k) ==
              if k in fixedMembers then Only(Persisted(b, c, fixedMembers), k)
              else Persisted(b, c, Only(doc - fixedMembers.Keys, k))
  {
  }

  /** Setting the record id and `live_when`, and keeping the document, is unseen exactly for settled
      documents. */
  lemma RuntimeKeepsHashIff(b: Backend, c: Coll, recordId: string, doc: Doc)
    ensures Settled(b, c, recordId, doc) ==> HashDoc(c, Persisted(b, c, RuntimeDoc(c, recordId, doc))) == HashDoc(c, doc)
    ensures HashDoc(c, doc).Some? && HashDoc(c, Persisted(b, c, RuntimeDoc(c, recordId, doc))) == HashDoc(c, doc) ==>
              Settled(b, c, recordId, doc)
  {
    hide NormalForm, Survives, Strip;
    var fixedMembers, effective := Assigned(c, recordId), Persisted(b, c, RuntimeDoc(c, recordId, doc));
    var rest := doc - fixedMembers.Keys;
    MembersDecide(c, doc, effective);
    OidIdentifiesNormalForm(c, doc, effective);
    SurvivesByMember(c.lib, JsonColumn, Strip(c, rest));
    forall k ensures Only(effective, k) ==
                     if k in fixedMembers then Only(Persisted(b, c, fixedMembers), k) else Persisted(b, c, Only(rest, k))
      ensures k !in fixedMembers ==> Only(doc, k) == Only(rest, k)
    {
      KeptMembers(b, c, recordId, doc, k);
    }
    if Settled(b, c, recordId, doc) {
      forall k ensures NormalForm(c, Only(doc, k)) == NormalForm(c, Only(effective, k)) {
        KeptMember(c, rest, k);
      }
    }
    if NormalForm(c, doc).Some? && SameMembers(c, doc, effective) {
      forall k ensures b == Postgres ==> Survives(c.lib, JsonColumn, Obj(Only(Strip(c, rest), k))) {
        assert NormalForm(c, Only(doc, k)) == NormalForm(c, Only(effective, k));
        if k in fixedMembers {
          StripAddsNothing(c, rest, k);
        } else {
          MemberIsHashed(c, doc, k);
          KeptMember(c, rest, k);
        }
      }
    }
  }

  /** The live document was found under this id and `live_when`. */
  ghost predicate Found(c: Coll, recordId: string, current: Doc)
  {
    var fixedMembers := Assigned(c, recordId);
    forall k | k in fixedMembers :: Get(current, [k]) == fixedMembers[k]
  }

  lemma {:induction false} SetElsewhere(d: Doc, p: Path, v: Value, k: string)
    requires p != [] && p[0] != k
    ensures (k in Set(d, p, v) <==> k in d) && (k in d ==> Set(d, p, v)[k] == d[k])
  {
  }

  /** Over a document that was found, no carry touches a member that cfgit sets. */
  lemma {:induction false} CarryLeavesMember(effective: Doc, current: Doc, secrets: seq<string>, k: string)
    requires Get(effective, [k]) == Get(current, [k])
    ensures var carried := Carry(effective, current, secrets);
            (k in carried <==> k in effective) && (k in carried ==> carried[k] == effective[k])
    decreases secrets
  {
    if secrets != [] {
      var p := Split(secrets[0]);
      if Carries(effective, current, secrets[0]) {
        if p[0] == k {
          SameMemberSamePath(effective, current, p);
        }
        SetElsewhere(effective, p, Get(current, p), k);
      }
      CarryLeavesMember(CarryOne(effective, current, secrets[0]), current, secrets[1..], k);
    }
  }

  lemma {:induction false} PutIsSeenAsCarry(b: Backend, c: Coll, recordId: string, current: Doc, doc: Doc)
    requires b == Mongo ==> c.Ignored("_id")
    ensures HashDoc(c, PutDoc(b, c, recordId, current, doc)) ==
            HashDoc(c, Persisted(b, c, Carry(RuntimeDoc(c, recordId, doc), current, c.secretFields)))
  {
    hide Carry, SavedDoc;
    var carried := Carry(RuntimeDoc(c, recordId, doc), current, c.secretFields);
    assert b == Mongo ==> RemoveIgnored(c, PutDoc(b, c, recordId, current, doc)) == RemoveIgnored(c, carried);
  }

  /** An unsafe carry over a document that was found is seen, whatever was to be written. */
  lemma {:induction false} UnsafeCarryDrifts(b: Backend, c: Coll, recordId: string, current: Doc, doc: Doc)
    requires HashDoc(c, doc).Some? && Found(c, recordId, current)
    requires !CarrySafe(c, RuntimeDoc(c, recordId, doc), current, c.secretFields)
    ensures HashDoc(c, Persisted(b, c, Carry(RuntimeDoc(c, recordId, doc), current, c.secretFields))) != HashDoc(c, doc)
  {
    hide CarrySafe, Hidden, HashDoc, Persisted;
    var effective := RuntimeDoc(c, recordId, doc);
    var carried := Carry(effective, current, c.secretFields);
    UnsafeCarryIsSeen(c, effective, current, c.secretFields);
    var g: Path :| g != [] && !Hidden(c, g) && Shape(carried, g) > Shape(effective, g);
    if g[0] in Assigned(c, recordId) {
      CarryLeavesMember(effective, current, c.secretFields, g[0]);
      SameMemberSamePath(carried, effective, g);
    }
    SameMemberSamePath(effective, doc, g);
    KeptShape(b, c, carried, g);
    ShapeIsSeen(c, Persisted(b, c, carried), doc, g);
  }

  /** A put leaves a live document with the hash of the version it writes: for a settled document
      exactly when every carried secret lands where the hash does not look, and over a live document
      that was found, exactly when the document is settled too. */
  lemma {:induction false} PutKeepsHashIff(b: Backend, c: Coll, recordId: string, current: Doc, doc: Doc)
    requires HashDoc(c, doc).Some?
    requires b == Mongo ==> c.Ignored("_id")
    ensures var safe := CarrySafe(c, RuntimeDoc(c, recordId, doc), current, c.secretFields);
            var kept := HashDoc(c, PutDoc(b, c, recordId, current, doc)) == HashDoc(c, doc);
            && (Settled(b, c, recordId, doc) ==> (kept <==> safe))
            && (Found(c, recordId, current) ==> (kept <==> safe && Settled(b, c, recordId, doc)))
  {
    hide HashDoc, CarrySafe, Settled, Found, Persisted;
    var effective := RuntimeDoc(c, recordId, doc);
    var carried := Carry(effective, current, c.secretFields);
    PutIsSeenAsCarry(b, c, recordId, current, doc);
    RuntimeKeepsHashIff(b, c, recordId, doc);
    KeptStrip(b, c, effective);
    if Settled(b, c, recordId, doc) {
      CarryKeepsHashIff(b, c, effective, current, c.secretFields);
    } else if CarrySafe(c, effective, current, c.secretFields) {
      SafeCarryIsUnseen(c, effective, current, c.secretFields);
      KeptStrip(b, c, carried);
      SameStripSameHash(c, Persisted(b, c, carried), Persisted(b, c, effective));
    }
    if Found(c, recordId, current) && !CarrySafe(c, effective, current, c.secretFields) {
      UnsafeCarryDrifts(b, c, recordId, current, doc);
    }
  }

  /** A seeding restore inserts a document with the hash of its version, exactly when the version
      is settled. */
  lemma SeedKeepsHash(b: Backend, c: Coll, recordId: string, doc: Doc, freshId: Value)
    requires b == Mongo ==> c.Ignored("_id")
    ensures Settled(b, c, recordId, doc) ==> HashDoc(c, SeedDoc(b, c, recordId, doc, freshId)) == HashDoc(c, doc)
    ensures HashDoc(c, doc).Some? && HashDoc(c, SeedDoc(b, c, recordId, doc, freshId)) == HashDoc(c, doc) ==>
              Settled(b, c, recordId, doc)
  {
    hide Settled, Persisted;
    RuntimeKeepsHashIff(b, c, recordId, doc);
    assert RemoveIgnored(c, SeedDoc(b, c, recordId, doc, freshId)) ==
           RemoveIgnored(c, Persisted(b, c, RuntimeDoc(c, recordId, doc)));
  }

  /** A collection that keeps `a.key` out of history. */
  function KeyedColl(lib: Lib): Coll
  {
    Coll(lib, "id", map[], ["_id"], [], [], [Join(["a", "key"])])
  }

  lemma KeyedPath(lib: Lib)
    ensures Split(Join(["a", "key"])) == ["a", "key"] == NonEmpty(Split(Join(["a", "key"])))
    ensures !Hidden(KeyedColl(lib), ["a"])
  {
    SplitJoin(["a", "key"]);
    NonEmptyPlain(["a", "key"]);
  }

  /** The secret of the live document has to be carried over, into an object that is not there. */
  lemma {:induction false} KeyIsCarried(lib: Lib, doc: Doc, current: Doc)
    requires doc == map["id" := Str("alpha")]
    requires current == map["id" := Str("alpha"), "a" := Obj(map["key" := Str("sk")])]
    ensures RuntimeDoc(KeyedColl(lib), "alpha", doc) == doc
    ensures !CarrySafe(KeyedColl(lib), doc, current, KeyedColl(lib).secretFields)
  {
    hide Hidden, Split, Join;
    KeyedPath(lib);
    var p := ["a", "key"];
    assert p[1..] == ["key"];
    assert Get(doc, p) == Null && Gap(doc, p) == ["a"];
    assert Get(current, p) == Get(current["a"].m, ["key"]) == Str("sk");
  }

  /** A secret whose parent object the new document lacks makes cfgit's own write drift. */
  lemma MissingParentDrifts(b: Backend, lib: Lib, doc: Doc, current: Doc)
    requires doc == map["id" := Str("alpha")]
    requires current == map["id" := Str("alpha"), "a" := Obj(map["key" := Str("sk")])]
    ensures var c := KeyedColl(lib);
            && Settled(b, c, "alpha", doc) && Found(c, "alpha", current)
            && HashDoc(c, PutDoc(b, c, "alpha", current, doc)) != HashDoc(c, doc)
  {
    hide HashDoc, PutDoc, CarrySafe, Settled;
    KeyIsCarried(lib, doc, current);
    SettledByValue(b, KeyedColl(lib), "alpha", doc);
    KeyedDoc(lib, doc);
    PutKeepsHashIff(b, KeyedColl(lib), "alpha", current, doc);
  }

  lemma KeyedDoc(lib: Lib, doc: Doc)
    requires doc == map["id" := Str("alpha")]
    ensures HashDoc(KeyedColl(lib), doc).Some?
  {
    KeyedPath(lib);
    assert RemoveIgnored(KeyedColl(lib), doc) == doc == DropDotted(doc, Join(["a", "key"]));
    assert DropAll(doc, [Join(["a", "key"])]) == DropAll(doc, []) == doc;
    assert forall k | k in doc :: Normalize(lib, doc[k]).Some?;
  }

  lemma {:induction false} DatedDoc(lib: Lib, d: Doc)
    requires d == map["at" := Time(0)] || d == map["id" := Str("alpha"), "at" := Time(0)]
    ensures Strip(PlainColl(lib), d) == d && HashDoc(PlainColl(lib), d).Some?
    ensures Survives(lib, JsonColumn, Obj(d)) ==> lib.nfc(lib.isoUtc(0)) == lib.isoMillis(0)
  {
    assert RemoveIgnored(PlainColl(lib), d) == d;
    assert "at" in d && d["at"] == Time(0);
    SurvivingMembers(lib, JsonColumn, d);
    assert Survives(lib, JsonColumn, d["at"]) ==> lib.nfc(lib.isoUtc(0)) == lib.isoMillis(0);
    assert forall k | k in d :: Normalize(lib, d[k]).Some?;
  }

  /** Concrete input: a hashed date. Postgres writes it with its offset, the hash with a `Z`, so the
      put drifts there and not on Mongo. */
  lemma DateDriftsOnPostgres(lib: Lib, current: Doc, doc: Doc)
    requires lib.isoUtc(0) == "1970-01-01T00:00:00+00:00" && lib.isoMillis(0) == "1970-01-01T00:00:00Z"
    requires lib.nfc("1970-01-01T00:00:00+00:00") == "1970-01-01T00:00:00+00:00"
    requires current == map["id" := Str("alpha")] && doc == map["id" := Str("alpha"), "at" := Time(0)]
    ensures var c := PlainColl(lib);
            && HashDoc(c, PutDoc(Mongo, c, "alpha", current, doc)) == HashDoc(c, doc)
            && HashDoc(c, PutDoc(Postgres, c, "alpha", current, doc)) != HashDoc(c, doc)
  {
    hide HashDoc, PutDoc, Strip, Survives, NormalForm;
    var c := PlainColl(lib);
    assert doc - Assigned(c, "alpha").Keys == map["at" := Time(0)];
    DatedDoc(lib, map["at" := Time(0)]);
    DatedDoc(lib, doc);
    SettledByValue(Mongo, c, "alpha", doc);
    PutKeepsHashIff(Mongo, c, "alpha", current, doc);
    PutKeepsHashIff(Postgres, c, "alpha", current, doc);
  }
}
