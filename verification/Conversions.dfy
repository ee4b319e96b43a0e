/** What becomes of values that JSON lacks when a document is written as JSON and read back, and when
    the hash sees the difference. */
module Conversions {
  import opened Documents
  import opened Canonical
  import opened Hashing

  /** The export file writes dates as they are and any further type as its text; the JSON column of
      Postgres takes dates only, written in UTC. */
  datatype Medium = ExportFile | JsonColumn

  function DateText(lib: Lib, medium: Medium, us: int): string
  {
    if medium == ExportFile then lib.isoText(us) else lib.isoUtc(us)
  }

  /** A value as it is read back. */
  function Saved(lib: Lib, medium: Medium, v: Value): Value
  {
    match v
    case Time(us) => Str(DateText(lib, medium, us))
    case Dec(_, digits) => if medium == ExportFile then Str(digits) else v
    case Other(_, text) => if medium == ExportFile then Str(text) else v
    case Arr(xs) => Arr(seq(|xs|, i requires 0 <= i < |xs| => Saved(lib, medium, xs[i])))
    case Obj(m) => Obj(map k | k in m :: Saved(lib, medium, m[k]))
    case _ => v
  }

  function SavedDoc(lib: Lib, medium: Medium, d: Doc): Doc
  {
    map k | k in d :: Saved(lib, medium, d[k])
  }

  /** Wherever the medium changes the type of a value, it keeps the text that is hashed. */
  predicate Survives(lib: Lib, medium: Medium, v: Value)
  {
    match v
    case Time(us) => lib.nfc(DateText(lib, medium, us)) == lib.isoMillis(us / 1000)
    case Dec(r, digits) => medium == ExportFile ==> NStr(lib.nfc(digits)) == Number(lib, r)
    case Other(_, text) => medium == ExportFile ==> lib.nfc(text) == text
    case Arr(xs) => forall i | 0 <= i < |xs| :: Survives(lib, medium, xs[i])
    case Obj(m) => forall k | k in m :: Survives(lib, medium, m[k])
    case _ => true
  }

  lemma {:induction false} SavedUpdate(lib: Lib, medium: Medium, d: Doc, k: string, m: Doc)
    ensures SavedDoc(lib, medium, d[k := Obj(m)]) == SavedDoc(lib, medium, d)[k := Obj(SavedDoc(lib, medium, m))]
  {
    assert Saved(lib, medium, Obj(m)) == Obj(SavedDoc(lib, medium, m));
  }

  lemma {:induction false} SavedDrop(lib: Lib, medium: Medium, d: Doc, p: Path)
    ensures SavedDoc(lib, medium, Drop(d, p)) == Drop(SavedDoc(lib, medium, d), p)
    decreases p
  {
    if |p| > 1 && p[0] in d && d[p[0]].Obj? {
      var inner := d[p[0]].m;
      SavedDrop(lib, medium, inner, p[1..]);
      assert Saved(lib, medium, d[p[0]]) == Obj(SavedDoc(lib, medium, inner));
      SavedUpdate(lib, medium, d, p[0], Drop(inner, p[1..]));
    } else if |p| == 1 {
      assert SavedDoc(lib, medium, d - {p[0]}) == SavedDoc(lib, medium, d) - {p[0]};
    }
  }

  lemma {:induction false} SavedDropAll(lib: Lib, medium: Medium, d: Doc, ps: seq<string>)
    ensures SavedDoc(lib, medium, DropAll(d, ps)) == DropAll(SavedDoc(lib, medium, d), ps)
  {
    if ps != [] {
      SavedDrop(lib, medium, d, NonEmpty(Split(ps[0])));
      SavedDropAll(lib, medium, DropDotted(d, ps[0]), ps[1..]);
    }
  }

  lemma SavedStrip(c: Coll, medium: Medium, d: Doc)
    ensures Strip(c, SavedDoc(c.lib, medium, d)) == SavedDoc(c.lib, medium, Strip(c, d))
  {
    var kept := RemoveIgnored(c, d);
    assert RemoveIgnored(c, SavedDoc(c.lib, medium, d)) == SavedDoc(c.lib, medium, kept);
    SavedDropAll(c.lib, medium, kept, c.ignorePaths);
    SavedDropAll(c.lib, medium, DropAll(kept, c.ignorePaths), c.secretFields);
  }

  /** `w` has a normal tree when `v` has one, and the same one exactly when `v` survives. */
  ghost predicate SameWhenSurviving(lib: Lib, medium: Medium, v: Value, w: Value)
  {
    && (Normalize(lib, w).Some? <==> Normalize(lib, v).Some?)
    && (Normalize(lib, v).Some? ==> (Normalize(lib, w) == Normalize(lib, v) <==> Survives(lib, medium, v)))
  }

  lemma {:induction false} SavedItems(lib: Lib, medium: Medium, xs: seq<Value>)
    requires forall i | 0 <= i < |xs| :: SameWhenSurviving(lib, medium, xs[i], Saved(lib, medium, xs[i]))
    ensures SameWhenSurviving(lib, medium, Arr(xs), Saved(lib, medium, Arr(xs)))
  {
    var ys := Saved(lib, medium, Arr(xs)).xs;
    assert forall i | 0 <= i < |xs| :: ys[i] == Saved(lib, medium, xs[i]) && SameWhenSurviving(lib, medium, xs[i], ys[i]);
    if Normalize(lib, Arr(xs)).Some? {
      var a, b := Normalize(lib, Arr(xs)).value.xs, Normalize(lib, Arr(ys)).value.xs;
      assert a == b <==> forall i | 0 <= i < |xs| :: a[i] == b[i];
      assert forall i | 0 <= i < |xs| :: a[i] == b[i] <==> Survives(lib, medium, xs[i]);
    }
  }

  lemma {:induction false} SavedMembers(lib: Lib, medium: Medium, m: Doc)
    requires forall k | k in m :: SameWhenSurviving(lib, medium, m[k], Saved(lib, medium, m[k]))
    ensures SameWhenSurviving(lib, medium, Obj(m), Obj(SavedDoc(lib, medium, m)))
  {
    hide Normalize, Survives;
    var n := SavedDoc(lib, medium, m);
    NormalMembers(lib, m);
    NormalMembersAgree(lib, m, n);
    SurvivingMembers(lib, medium, m);
    forall k | k in m ensures SameWhenSurviving(lib, medium, m[k], n[k]) {
    }
  }

  lemma {:induction false} SurvivingMembers(lib: Lib, medium: Medium, m: Doc)
    ensures Survives(lib, medium, Obj(m)) <==> forall k | k in m :: m[k] != Null ==> Survives(lib, medium, m[k])
  {
  }

  lemma {:induction false} SavedNormal(lib: Lib, medium: Medium, v: Value)
    ensures SameWhenSurviving(lib, medium, v, Saved(lib, medium, v))
  {
    match v
    case Arr(xs) =>
      forall i | 0 <= i < |xs| ensures SameWhenSurviving(lib, medium, xs[i], Saved(lib, medium, xs[i])) {
        SavedNormal(lib, medium, xs[i]);
      }
      SavedItems(lib, medium, xs);
    case Obj(m) =>
      forall k | k in m ensures SameWhenSurviving(lib, medium, m[k], Saved(lib, medium, m[k])) {
        SavedNormal(lib, medium, m[k]);
      }
      SavedMembers(lib, medium, m);
      assert Saved(lib, medium, v) == Obj(SavedDoc(lib, medium, m));
    case _ =>
  }

  /** A document read back can be hashed when it could before, and has the same hash
      exactly when everything that is hashed survives. */
  lemma {:induction false} SavedKeepsHashIff(c: Coll, medium: Medium, d: Doc)
    ensures HashDoc(c, SavedDoc(c.lib, medium, d)).Some? <==> HashDoc(c, d).Some?
    ensures HashDoc(c, d).Some? ==>
              (HashDoc(c, SavedDoc(c.lib, medium, d)) == HashDoc(c, d) <==> Survives(c.lib, medium, Obj(Strip(c, d))))
  {
    SavedStrip(c, medium, d);
    SavedNormal(c.lib, medium, Obj(Strip(c, d)));
    assert Saved(c.lib, medium, Obj(Strip(c, d))) == Obj(SavedDoc(c.lib, medium, Strip(c, d)));
    OidIdentifiesNormalForm(c, SavedDoc(c.lib, medium, d), d);
  }

  /** JSON has this value already. */
  predicate JsonValue(v: Value)
  {
    match v
    case Arr(xs) => forall i | 0 <= i < |xs| :: JsonValue(xs[i])
    case Obj(m) => forall k | k in m :: JsonValue(m[k])
    case _ => !v.Time? && !v.Dec? && !v.Other?
  }

  /** JSON values are not changed at all. */
  lemma {:induction false} JsonSurvives(lib: Lib, medium: Medium, v: Value)
    requires JsonValue(v)
    ensures Saved(lib, medium, v) == v && Survives(lib, medium, v)
  {
    match v
    case Arr(xs) =>
      forall i | 0 <= i < |xs| ensures Saved(lib, medium, xs[i]) == xs[i] && Survives(lib, medium, xs[i]) {
        JsonSurvives(lib, medium, xs[i]);
      }
    case Obj(m) =>
      forall k | k in m ensures Saved(lib, medium, m[k]) == m[k] && Survives(lib, medium, m[k]) {
        JsonSurvives(lib, medium, m[k]);
      }
    case _ =>
  }

  lemma {:induction false} SavedGet(lib: Lib, medium: Medium, d: Doc, p: Path)
    requires p != []
    ensures Get(SavedDoc(lib, medium, d), p) == Saved(lib, medium, Get(d, p))
    decreases p
  {
    if |p| > 1 && p[0] in d && d[p[0]].Obj? {
      SavedGet(lib, medium, d[p[0]].m, p[1..]);
      assert Saved(lib, medium, d[p[0]]) == Obj(SavedDoc(lib, medium, d[p[0]].m));
    }
  }

  /** What survives is decided member by member. */
  lemma {:induction false} SurvivesByMember(lib: Lib, medium: Medium, m: Doc)
    ensures Survives(lib, medium, Obj(m)) <==> forall k :: Survives(lib, medium, Obj(Only(m, k)))
  {
    forall k ensures Survives(lib, medium, Obj(Only(m, k))) <==> (k in m ==> Survives(lib, medium, m[k])) {
      var one := Only(m, k);
      SurvivingMembers(lib, medium, one);
      assert forall x | x in one :: x == k && k in m && one[x] == m[k];
      assert k in m ==> k in one;
    }
    SurvivingMembers(lib, medium, m);
  }

  /** A collection of plain documents, with every member hashed but `_id`. */
  function PlainColl(lib: Lib): Coll
  {
    Coll(lib, "id", map[], ["_id"], [], [], [])
  }
}
