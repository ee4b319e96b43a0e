/** Which part of a document is versioned, how it is normalised, and the payload that is hashed. */
module Hashing {
  import opened Documents
  import opened Canonical

  /** Text formatting and pattern matching that the model leaves open. */
  datatype Lib = Lib(
    fnmatch: (string, string) -> bool,
    nfc: string -> string,
    decimalText: real -> string,
    isoMillis: int -> string,
    isoText: int -> string,
    isoUtc: int -> string)

  /** The settings of one collection. */
  datatype Coll = Coll(
    lib: Lib,
    idField: string,
    liveWhen: map<string, Value>,
    ignoreFields: seq<string>,
    ignorePatterns: seq<string>,
    ignorePaths: seq<string>,
    secretFields: seq<string>)
  {
    predicate Ignored(key: string)
    {
      key in ignoreFields || exists i | 0 <= i < |ignorePatterns| :: lib.fnmatch(key, ignorePatterns[i])
    }
  }

  /** The oid. sha256 is taken to be injective, so the oid is the payload itself. */
  type Oid = string

  function RemoveIgnored(c: Coll, d: Doc): Doc
  {
    map k | k in d && !c.Ignored(k) :: d[k]
  }

  /** The form kept in history: secrets removed. */
  function Stored(c: Coll, d: Doc): Doc
  {
    DropAll(d, c.secretFields)
  }

  /** The form that is hashed: ignored members, ignored paths and secrets removed. */
  function Strip(c: Coll, d: Doc): Doc
  {
    DropAll(DropAll(RemoveIgnored(c, d), c.ignorePaths), c.secretFields)
  }

  method StoredDoc(c: Coll, doc: Doc) returns (out: Doc)
    ensures out == Stored(c, doc)
  {
    out := doc;
    for i := 0 to |c.secretFields|
      invariant DropAll(out, c.secretFields[i..]) == Stored(c, doc)
    {
      out := DropDotted(out, c.secretFields[i]);
    }
  }

  method StripForHash(c: Coll, doc: Doc) returns (out: Doc)
    ensures out == Strip(c, doc)
  {
    out := doc;
    var keys := doc.Keys;
    while keys != {}
      invariant keys <= doc.Keys
      invariant out == map k | k in doc && (k in keys || !c.Ignored(k)) :: doc[k]
      decreases |keys|
    {
      var key :| key in keys;
      keys := keys - {key};
      if c.Ignored(key) {
        out := out - {key};
      }
    }
    assert out == RemoveIgnored(c, doc);
    for i := 0 to |c.ignorePaths|
      invariant DropAll(out, c.ignorePaths[i..]) == DropAll(RemoveIgnored(c, doc), c.ignorePaths)
    {
      out := DropDotted(out, c.ignorePaths[i]);
    }
    ghost var cleared := out;
    for i := 0 to |c.secretFields|
      invariant DropAll(out, c.secretFields[i..]) == DropAll(cleared, c.secretFields)
    {
      out := DropDotted(out, c.secretFields[i]);
    }
  }

  /** An integral number becomes an integer, any other its shortest decimal text. */
  function Number(lib: Lib, r: real): Norm
  {
    if r == r.Floor as real then NInt(r.Floor) else NStr(lib.decimalText(r))
  }

  /** The normal tree, or None where the source raises (NaN or infinity). */
  function Normalize(lib: Lib, v: Value): Option<Norm>
  {
    match v
    case Null => Some(NNull)
    case Bool(b) => Some(NBool(b))
    case Int(i) => Some(NInt(i))
    case Num(r) => Some(Number(lib, r))
    case Dec(r, _) => Some(Number(lib, r))
    case NonFinite => None
    case Str(s) => Some(NStr(lib.nfc(s)))
    case Time(us) => Some(NStr(lib.isoMillis(us / 1000)))
    case Other(_, text) => Some(NStr(text))
    case Arr(xs) =>
      if forall i | 0 <= i < |xs| :: Normalize(lib, xs[i]).Some? then
        Some(NArr(seq(|xs|, i requires 0 <= i < |xs| => Normalize(lib, xs[i]).value)))
      else None
    case Obj(m) =>
      if forall k | k in m :: Normalize(lib, m[k]).Some? then
        Some(NObj(map k | k in m && m[k] != Null :: Normalize(lib, m[k]).value))
      else None
  }

  /** The normal tree of the hashed part of a document. */
  function NormalForm(c: Coll, d: Doc): Option<Norm>
  {
    Normalize(c.lib, Obj(Strip(c, d)))
  }

  function HashDoc(c: Coll, d: Doc): Option<Oid>
  {
    match NormalForm(c, d)
    case None => None
    case Some(t) => Some(Text(t))
  }

  // ----- what the hash sees -----

  lemma {:induction false} RemoveIgnoredCommutes(c: Coll, d: Doc, p: Path)
    ensures RemoveIgnored(c, Drop(d, p)) == Drop(RemoveIgnored(c, d), p)
  {
    if p != [] && p[0] in d {
      assert RemoveIgnored(c, Drop(d, p)) == Drop(RemoveIgnored(c, d), p);
    }
  }

  lemma {:induction false} RemoveIgnoredDropAll(c: Coll, d: Doc, ps: seq<string>)
    ensures RemoveIgnored(c, DropAll(d, ps)) == DropAll(RemoveIgnored(c, d), ps)
  {
    if ps != [] {
      RemoveIgnoredCommutes(c, d, NonEmpty(Split(ps[0])));
      RemoveIgnoredDropAll(c, DropDotted(d, ps[0]), ps[1..]);
    }
  }

  /** Removing secrets for storage loses nothing the hash sees. */
  lemma StripStored(c: Coll, d: Doc)
    ensures Strip(c, Stored(c, d)) == Strip(c, d)
  {
    var kept := RemoveIgnored(c, d);
    RemoveIgnoredDropAll(c, d, c.secretFields);
    DropAllCommutes(kept, c.secretFields, c.ignorePaths);
    DropAllTwice(DropAll(kept, c.ignorePaths), c.secretFields, c.secretFields);
  }

  /** The stored form hashes like its source and is its own stored form. */
  lemma StoredKeepsHash(c: Coll, d: Doc)
    ensures HashDoc(c, Stored(c, d)) == HashDoc(c, d)
    ensures Stored(c, Stored(c, d)) == Stored(c, d)
  {
    StripStored(c, d);
    DropAllTwice(d, c.secretFields, c.secretFields);
  }

  /** The stored form has nothing at or below a secret field, and everything else as it was. */
  lemma {:induction false} StoredReads(c: Coll, d: Doc, g: Path)
    requires g != []
    ensures LeadsTo(c.secretFields, g) ==> Get(Stored(c, d), g) == Null
    ensures AllBeside(c.secretFields, g) ==> Get(Stored(c, d), g) == Get(d, g)
  {
    DropAllReads(d, c.secretFields, g);
  }

  lemma {:induction false} SameMemberSamePath(d: Doc, e: Doc, p: Path)
    requires p != [] && Get(d, [p[0]]) == Get(e, [p[0]])
    ensures Get(d, p) == Get(e, p)
  {
  }

  /** The hashed form has nothing at or below an ignored member, an ignored path or a secret field, and
      everything else as it was. */
  lemma {:induction false} StripReads(c: Coll, d: Doc, g: Path)
    requires g != []
    ensures c.Ignored(g[0]) || LeadsTo(c.ignorePaths, g) || LeadsTo(c.secretFields, g) ==> Get(Strip(c, d), g) == Null
    ensures !c.Ignored(g[0]) && AllBeside(c.ignorePaths, g) && AllBeside(c.secretFields, g) ==>
              Get(Strip(c, d), g) == Get(d, g)
  {
    var kept := RemoveIgnored(c, d);
    var cleared := DropAll(kept, c.ignorePaths);
    DropAllReads(kept, c.ignorePaths, g);
    DropAllReads(cleared, c.secretFields, g);
    if c.Ignored(g[0]) {
      DropAllKeepsNull(kept, c.ignorePaths, g);
    } else {
      SameMemberSamePath(kept, d, g);
    }
    if Get(cleared, g) == Null {
      DropAllKeepsNull(cleared, c.secretFields, g);
    }
  }

  /** A path that is stripped anyway can be dropped first. */
  lemma StripAbsorbs(c: Coll, d: Doc, dotted: string)
    requires dotted in c.ignorePaths || dotted in c.secretFields
    ensures Strip(c, DropDotted(d, dotted)) == Strip(c, d)
  {
    var kept := RemoveIgnored(c, d);
    RemoveIgnoredCommutes(c, d, NonEmpty(Split(dotted)));
    if dotted in c.ignorePaths {
      DropAllAbsorbs(kept, c.ignorePaths, dotted);
    } else {
      DropAllOne(kept, c.ignorePaths, dotted);
      DropAllAbsorbs(DropAll(kept, c.ignorePaths), c.secretFields, dotted);
    }
  }

  /** Two documents have the same oid exactly when their stripped, normalised trees are equal. */
  lemma OidIdentifiesNormalForm(c: Coll, d: Doc, e: Doc)
    ensures HashDoc(c, d) == HashDoc(c, e) <==> NormalForm(c, d) == NormalForm(c, e)
  {
    if NormalForm(c, d).Some? && NormalForm(c, e).Some? {
      TextInjective(NormalForm(c, d).value, NormalForm(c, e).value);
    }
  }

  // ----- member by member -----

  lemma {:induction false} NormalMembers(lib: Lib, m: Doc)
    ensures Normalize(lib, Obj(m)).Some? <==> forall k | k in m :: Normalize(lib, m[k]).Some?
    ensures Normalize(lib, Obj(m)).Some? ==>
              Normalize(lib, Obj(m)).value.NObj? &&
              var t := Normalize(lib, Obj(m)).value.m;
              (forall k :: k in t <==> k in m && m[k] != Null) &&
              forall k | k in t :: t[k] == Normalize(lib, m[k]).value
  {
  }

  /** Objects with the same members have the same normal tree exactly when their members do. */
  lemma {:induction false} NormalMembersAgree(lib: Lib, m: Doc, n: Doc)
    requires m.Keys == n.Keys && forall k | k in m :: m[k] == Null <==> n[k] == Null
    requires forall k | k in m :: Normalize(lib, m[k]).Some? <==> Normalize(lib, n[k]).Some?
    ensures Normalize(lib, Obj(m)).Some? <==> Normalize(lib, Obj(n)).Some?
    ensures Normalize(lib, Obj(m)).Some? ==>
              (Normalize(lib, Obj(m)) == Normalize(lib, Obj(n)) <==>
               forall k | k in m :: m[k] != Null ==> Normalize(lib, m[k]) == Normalize(lib, n[k]))
  {
    hide Normalize;
    NormalMembers(lib, m);
    NormalMembers(lib, n);
    if Normalize(lib, Obj(m)).Some? {
      var a, b := Normalize(lib, Obj(m)).value.m, Normalize(lib, Obj(n)).value.m;
      assert a.Keys == b.Keys;
      assert a == b <==> forall k | k in a :: a[k] == b[k];
    }
  }

  /** The document with this member only. */
  function Only(d: Doc, k: string): Doc
  {
    if k in d then map[k := d[k]] else map[]
  }

  lemma {:induction false} OnlyDrop(d: Doc, k: string, p: Path)
    ensures Only(Drop(d, p), k) == Drop(Only(d, k), p)
  {
    if p != [] && p[0] == k && k in d && |p| == 1 {
      assert Only(d, k) - {k} == map[];
    } else if |p| == 1 {
      assert Only(d, k) - {p[0]} == Only(d, k);
    }
  }

  lemma {:induction false} OnlyDropAll(d: Doc, k: string, ps: seq<string>)
    ensures Only(DropAll(d, ps), k) == DropAll(Only(d, k), ps)
  {
    if ps != [] {
      OnlyDrop(d, k, NonEmpty(Split(ps[0])));
      OnlyDropAll(DropDotted(d, ps[0]), k, ps[1..]);
    }
  }

  lemma OnlyStrip(c: Coll, d: Doc, k: string)
    ensures Strip(c, Only(d, k)) == Only(Strip(c, d), k)
  {
    var kept := RemoveIgnored(c, d);
    assert RemoveIgnored(c, Only(d, k)) == Only(kept, k);
    OnlyDropAll(kept, k, c.ignorePaths);
    OnlyDropAll(DropAll(kept, c.ignorePaths), k, c.secretFields);
  }

  lemma {:induction false} OnlyNormal(lib: Lib, d: Doc, k: string)
    requires Normalize(lib, Obj(d)).Some?
    ensures var t := Normalize(lib, Obj(d)).value.m;
            Normalize(lib, Obj(Only(d, k))) == Some(NObj(if k in t then map[k := t[k]] else map[]))
  {
    hide Normalize;
    NormalMembers(lib, d);
    NormalMembers(lib, Only(d, k));
    var t, u := Normalize(lib, Obj(d)).value.m, Normalize(lib, Obj(Only(d, k))).value.m;
    assert u == if k in t then map[k := t[k]] else map[];
  }

  /** What the hash sees of every member is the same. */
  ghost predicate SameMembers(c: Coll, d: Doc, e: Doc)
  {
    forall k :: NormalForm(c, Only(d, k)) == NormalForm(c, Only(e, k))
  }

  /** What is hashed is decided member by member. */
  lemma MembersDecide(c: Coll, d: Doc, e: Doc)
    ensures SameMembers(c, d, e) ==> NormalForm(c, d) == NormalForm(c, e)
    ensures NormalForm(c, d).Some? && NormalForm(c, d) == NormalForm(c, e) ==> SameMembers(c, d, e)
  {
    hide Normalize, Strip;
    var x, y := Strip(c, d), Strip(c, e);
    forall k ensures NormalForm(c, Only(d, k)) == Normalize(c.lib, Obj(Only(x, k)))
      ensures NormalForm(c, Only(e, k)) == Normalize(c.lib, Obj(Only(y, k)))
    {
      OnlyStrip(c, d, k);
      OnlyStrip(c, e, k);
    }
    if SameMembers(c, d, e) {
      AllMembersSame(c.lib, x, y);
    }
    if Normalize(c.lib, Obj(x)).Some? && Normalize(c.lib, Obj(x)) == Normalize(c.lib, Obj(y)) {
      forall k ensures Normalize(c.lib, Obj(Only(x, k))) == Normalize(c.lib, Obj(Only(y, k))) {
        OnlyNormal(c.lib, x, k);
        OnlyNormal(c.lib, y, k);
      }
    }
  }

  lemma {:induction false} AllMembersSame(lib: Lib, x: Doc, y: Doc)
    requires forall k :: Normalize(lib, Obj(Only(x, k))) == Normalize(lib, Obj(Only(y, k)))
    ensures Normalize(lib, Obj(x)) == Normalize(lib, Obj(y))
  {
    hide Normalize;
    NormalMembers(lib, x);
    NormalMembers(lib, y);
    forall k ensures k in x && Normalize(lib, x[k]).None? <==> k in y && Normalize(lib, y[k]).None? {
      NormalMembers(lib, Only(x, k));
      NormalMembers(lib, Only(y, k));
      assert Normalize(lib, Obj(Only(x, k))) == Normalize(lib, Obj(Only(y, k)));
      assert k in x ==> k in Only(x, k);
      assert k in y ==> k in Only(y, k);
    }
    if Normalize(lib, Obj(x)).Some? {
      var t, u := Normalize(lib, Obj(x)).value.m, Normalize(lib, Obj(y)).value.m;
      forall k ensures (k in t <==> k in u) && (k in t ==> t[k] == u[k]) {
        OnlyNormal(lib, x, k);
        OnlyNormal(lib, y, k);
        var a := if k in t then map[k := t[k]] else map[];
        var b := if k in u then map[k := u[k]] else map[];
        assert a == b;
        assert k in t <==> k in a;
        assert k in u <==> k in b;
      }
      assert t == u;
    }
  }

  // ----- what the hash does not see -----

  /** At any depth: null members left out, integral numbers written as integers. */
  function Tidy(v: Value): Value
  {
    match v
    case Num(r) => if r == r.Floor as real then Int(r.Floor) else v
    case Arr(xs) => Arr(seq(|xs|, i requires 0 <= i < |xs| => Tidy(xs[i])))
    case Obj(m) => Obj(map k | k in m && m[k] != Null :: Tidy(m[k]))
    case _ => v
  }

  function TidyDoc(d: Doc): Doc
  {
    map k | k in d && d[k] != Null :: Tidy(d[k])
  }

  lemma {:induction false} TidyDrop(d: Doc, p: Path)
    ensures TidyDoc(Drop(d, p)) == Drop(TidyDoc(d), p)
    decreases p
  {
    if |p| > 1 && p[0] in d && d[p[0]].Obj? {
      var inner := d[p[0]].m;
      TidyDrop(inner, p[1..]);
      assert Tidy(d[p[0]]) == Obj(TidyDoc(inner));
      TidyUpdate(d, p[0], Drop(inner, p[1..]));
    } else if |p| == 1 {
      assert TidyDoc(d - {p[0]}) == TidyDoc(d) - {p[0]};
    }
  }

  lemma {:induction false} TidyUpdate(d: Doc, k: string, m: Doc)
    ensures TidyDoc(d[k := Obj(m)]) == TidyDoc(d)[k := Obj(TidyDoc(m))]
  {
    assert Tidy(Obj(m)) == Obj(TidyDoc(m));
  }

  lemma {:induction false} TidyDropAll(d: Doc, ps: seq<string>)
    ensures TidyDoc(DropAll(d, ps)) == DropAll(TidyDoc(d), ps)
  {
    if ps != [] {
      TidyDrop(d, NonEmpty(Split(ps[0])));
      TidyDropAll(DropDotted(d, ps[0]), ps[1..]);
    }
  }

  lemma {:induction false} TidyNormalItems(lib: Lib, xs: seq<Value>)
    requires forall i | 0 <= i < |xs| :: Normalize(lib, Tidy(xs[i])) == Normalize(lib, xs[i])
    ensures Normalize(lib, Tidy(Arr(xs))) == Normalize(lib, Arr(xs))
  {
    var ys := seq(|xs|, i requires 0 <= i < |xs| => Tidy(xs[i]));
    assert Tidy(Arr(xs)) == Arr(ys);
    assert forall i | 0 <= i < |xs| :: ys[i] == Tidy(xs[i]);
    if Normalize(lib, Arr(xs)).Some? {
      assert Normalize(lib, Arr(ys)).value.xs == Normalize(lib, Arr(xs)).value.xs;
    }
  }

  /** Leaving the null members out does not change the normal tree. */
  lemma {:induction false} NormalWithoutNulls(lib: Lib, m: Doc, t: Doc)
    requires t.Keys == set k | k in m && m[k] != Null
    requires forall k | k in t :: t[k] != Null && Normalize(lib, t[k]) == Normalize(lib, m[k])
    ensures Normalize(lib, Obj(t)) == Normalize(lib, Obj(m))
  {
    if Normalize(lib, Obj(t)).Some? {
      forall k | k in m ensures Normalize(lib, m[k]).Some? {
        if m[k] != Null {
          assert k in t;
        }
      }
      assert Normalize(lib, Obj(t)).value.m == Normalize(lib, Obj(m)).value.m;
    }
  }

  lemma {:induction false} TidyNormalMembers(lib: Lib, m: Doc)
    requires forall k | k in m :: Normalize(lib, Tidy(m[k])) == Normalize(lib, m[k])
    ensures Normalize(lib, Tidy(Obj(m))) == Normalize(lib, Obj(m))
  {
    hide Normalize;
    var t := TidyDoc(m);
    assert Tidy(Obj(m)) == Obj(t);
    assert t.Keys == set k | k in m && m[k] != Null;
    NormalWithoutNulls(lib, m, t);
  }

  lemma {:induction false} TidyNormal(lib: Lib, v: Value)
    ensures Normalize(lib, Tidy(v)) == Normalize(lib, v)
  {
    match v
    case Arr(xs) =>
      forall i | 0 <= i < |xs| ensures Normalize(lib, Tidy(xs[i])) == Normalize(lib, xs[i]) {
        TidyNormal(lib, xs[i]);
      }
      TidyNormalItems(lib, xs);
    case Obj(m) =>
      forall k | k in m ensures Normalize(lib, Tidy(m[k])) == Normalize(lib, m[k]) {
        TidyNormal(lib, m[k]);
      }
      TidyNormalMembers(lib, m);
    case _ =>
  }

  /** Null members hash like absent ones and integral floats like integers, at any depth. */
  lemma TidyKeepsHash(c: Coll, d: Doc)
    ensures HashDoc(c, TidyDoc(d)) == HashDoc(c, d)
  {
    var kept := RemoveIgnored(c, d);
    assert RemoveIgnored(c, TidyDoc(d)) == TidyDoc(kept);
    TidyDropAll(kept, c.ignorePaths);
    TidyDropAll(DropAll(kept, c.ignorePaths), c.secretFields);
    TidyNormal(c.lib, Obj(Strip(c, d)));
  }
}
