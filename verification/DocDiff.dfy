/** The structured diff of two documents, and replaying it with dotted edits. */
module DocDiff {
  import opened Canonical
  import opened Documents
  import opened Hashing

  // ----- equality as the source language has it -----

  /** The number a value compares as; truth values compare as 0 and 1. */
  function Numeric(v: Value): Option<real>
  {
    match v
    case Bool(b) => Some(if b then 1.0 else 0.0)
    case Int(i) => Some(i as real)
    case Num(r) => Some(r)
    case _ => None
  }

  /** `==` of two values. NaN equals nothing. */
  predicate Equal(v: Value, w: Value)
  {
    if Numeric(v).Some? || Numeric(w).Some? then Numeric(v) == Numeric(w)
    else
      match v
      case Arr(xs) => w.Arr? && |xs| == |w.xs| && forall i | 0 <= i < |xs| :: Equal(xs[i], w.xs[i])
      case Obj(m) => w.Obj? && m.Keys == w.m.Keys && forall k | k in m :: Equal(m[k], w.m[k])
      case NonFinite => false
      case _ => v == w
  }

  /** Equal, or the same value. */
  predicate Agree(v: Value, w: Value)
  {
    if Numeric(v).Some? || Numeric(w).Some? then Numeric(v) == Numeric(w)
    else
      match v
      case Arr(xs) => w.Arr? && |xs| == |w.xs| && forall i | 0 <= i < |xs| :: Agree(xs[i], w.xs[i])
      case Obj(m) => w.Obj? && m.Keys == w.m.Keys && forall k | k in m :: Agree(m[k], w.m[k])
      case _ => v == w
  }

  lemma {:induction false} EqualAgrees(v: Value, w: Value)
    ensures Equal(v, w) ==> Agree(v, w)
  {
    if Equal(v, w) {
      match v
      case Arr(xs) =>
        forall i | 0 <= i < |xs| ensures Agree(xs[i], w.xs[i]) { EqualAgrees(xs[i], w.xs[i]); }
      case Obj(m) =>
        forall k | k in m ensures Agree(m[k], w.m[k]) { EqualAgrees(m[k], w.m[k]); }
      case _ =>
    }
  }

  /** At every position, a truth value faces only a truth value. */
  predicate SameTruth(v: Value, w: Value)
  {
    && (v.Bool? <==> w.Bool?)
    && (v.Arr? && w.Arr? && |v.xs| == |w.xs| ==> forall i | 0 <= i < |v.xs| :: SameTruth(v.xs[i], w.xs[i]))
    && (v.Obj? && w.Obj? ==> forall k | k in v.m && k in w.m :: SameTruth(v.m[k], w.m[k]))
  }

  lemma {:induction false} EqualItemsNormal(lib: Lib, v: Value, w: Value)
    requires v.Arr? && Equal(v, w)
    requires forall i | 0 <= i < |v.xs| ::
               Normalize(lib, v.xs[i]).Some? && Normalize(lib, w.xs[i]).Some? &&
               (Normalize(lib, v.xs[i]) == Normalize(lib, w.xs[i]) <==> SameTruth(v.xs[i], w.xs[i]))
    ensures Normalize(lib, v).Some? && Normalize(lib, w).Some?
    ensures Normalize(lib, v) == Normalize(lib, w) <==> SameTruth(v, w)
  {
    var a, b := Normalize(lib, v).value.xs, Normalize(lib, w).value.xs;
    assert forall i | 0 <= i < |v.xs| :: a[i] == Normalize(lib, v.xs[i]).value && b[i] == Normalize(lib, w.xs[i]).value;
    assert a == b <==> forall i | 0 <= i < |v.xs| :: a[i] == b[i];
  }

  lemma {:induction false} EqualMembersNormal(lib: Lib, v: Value, w: Value)
    requires v.Obj? && Equal(v, w)
    requires forall k | k in v.m ::
               Normalize(lib, v.m[k]).Some? && Normalize(lib, w.m[k]).Some? &&
               (Normalize(lib, v.m[k]) == Normalize(lib, w.m[k]) <==> SameTruth(v.m[k], w.m[k]))
    ensures Normalize(lib, v).Some? && Normalize(lib, w).Some?
    ensures Normalize(lib, v) == Normalize(lib, w) <==> SameTruth(v, w)
  {
    hide Normalize;
    forall k | k in v.m ensures (v.m[k] == Null <==> w.m[k] == Null) && (v.m[k] == Null ==> SameTruth(v.m[k], w.m[k])) {
      assert Equal(v.m[k], w.m[k]);
    }
    NormalMembers(lib, v.m);
    NormalMembersAgree(lib, v.m, w.m);
  }

  /** Equal values have a normal tree, and the same one exactly when no truth value faces a number. */
  lemma {:induction false} EqualNormal(lib: Lib, v: Value, w: Value)
    requires Equal(v, w)
    ensures Normalize(lib, v).Some? && Normalize(lib, w).Some?
    ensures Normalize(lib, v) == Normalize(lib, w) <==> SameTruth(v, w)
  {
    match v
    case Arr(xs) =>
      forall i | 0 <= i < |xs|
        ensures Normalize(lib, xs[i]).Some? && Normalize(lib, w.xs[i]).Some?
        ensures Normalize(lib, xs[i]) == Normalize(lib, w.xs[i]) <==> SameTruth(xs[i], w.xs[i])
      {
        EqualNormal(lib, xs[i], w.xs[i]);
      }
      EqualItemsNormal(lib, v, w);
    case Obj(m) =>
      forall k | k in m
        ensures Normalize(lib, m[k]).Some? && Normalize(lib, w.m[k]).Some?
        ensures Normalize(lib, m[k]) == Normalize(lib, w.m[k]) <==> SameTruth(m[k], w.m[k])
      {
        EqualNormal(lib, m[k], w.m[k]);
      }
      EqualMembersNormal(lib, v, w);
    case _ =>
  }

  lemma {:induction false} AgreeReflexive(v: Value)
    ensures Agree(v, v)
  {
    match v
    case Arr(xs) =>
      forall i | 0 <= i < |xs| ensures Agree(xs[i], xs[i]) { AgreeReflexive(xs[i]); }
    case Obj(m) =>
      forall k | k in m ensures Agree(m[k], m[k]) { AgreeReflexive(m[k]); }
    case _ =>
  }

  // ----- the diff, with paths as lists of keys -----

  datatype EditOp = Added | Removed | Changed

  datatype Edit = Edit(path: Path, op: EditOp, before: Value, after: Value)

  function Under(k: string, edits: seq<Edit>): (r: seq<Edit>)
    ensures |r| == |edits|
    ensures forall i | 0 <= i < |edits| :: r[i] == edits[i].(path := [k] + edits[i].path)
  {
    seq(|edits|, i requires 0 <= i < |edits| => edits[i].(path := [k] + edits[i].path))
  }

  function DiffKey(m: Doc, n: Doc, k: string): seq<Edit>
    requires k in m || k in n
    decreases Obj(m), 0
  {
    if k !in m then [Edit([k], Added, Null, n[k])]
    else if k !in n then [Edit([k], Removed, m[k], Null)]
    else if Equal(m[k], n[k]) then []
    else if m[k].Obj? && n[k].Obj? then Under(k, DiffDoc(m[k].m, n[k].m))
    else [Edit([k], Changed, m[k], n[k])]
  }

  function DiffKeys(m: Doc, n: Doc, keys: seq<string>): seq<Edit>
    requires forall k | k in keys :: k in m || k in n
    decreases Obj(m), 1, |keys|
  {
    if keys == [] then [] else DiffKey(m, n, keys[0]) + DiffKeys(m, n, keys[1..])
  }

  function DiffDoc(m: Doc, n: Doc): seq<Edit>
    decreases Obj(m), 2
  {
    DiffKeys(m, n, SortedKeys(m.Keys + n.Keys))
  }

  lemma {:induction false} DiffKeysEmpty(m: Doc, n: Doc, keys: seq<string>)
    requires forall k | k in keys :: k in m || k in n
    ensures DiffKeys(m, n, keys) == [] <==> forall k | k in keys :: DiffKey(m, n, k) == []
    decreases |keys|
  {
    if keys != [] {
      DiffKeysEmpty(m, n, keys[1..]);
      assert |DiffKeys(m, n, keys)| == |DiffKey(m, n, keys[0])| + |DiffKeys(m, n, keys[1..])|;
      assert forall k :: k in keys <==> k == keys[0] || k in keys[1..];
    }
  }

  lemma EqualMeans(m: Doc, n: Doc)
    ensures Equal(Obj(m), Obj(n)) <==> m.Keys == n.Keys && forall k | k in m :: Equal(m[k], n[k])
  {
  }

  lemma {:induction false} DiffKeyEmptyIff(m: Doc, n: Doc, k: string)
    requires k in m || k in n
    ensures DiffKey(m, n, k) == [] <==> k in m && k in n && Equal(m[k], n[k])
    decreases Obj(m), 0
  {
    if k in m && k in n && m[k].Obj? && n[k].Obj? {
      DiffEmptyIff(m[k].m, n[k].m);
    }
  }

  /** The list is empty exactly when the two documents are equal. */
  lemma {:induction false} DiffEmptyIff(m: Doc, n: Doc)
    ensures DiffDoc(m, n) == [] <==> Equal(Obj(m), Obj(n))
    decreases Obj(m), 1
  {
    hide DiffKey, DiffKeys, Equal, SortedKeys;
    var keys := SortedKeys(m.Keys + n.Keys);
    DiffKeysEmpty(m, n, keys);
    assert forall k :: k in keys <==> k in m || k in n;
    forall k | k in keys ensures DiffKey(m, n, k) == [] <==> k in m && k in n && Equal(m[k], n[k]) {
      DiffKeyEmptyIff(m, n, k);
    }
    EqualMeans(m, n);
    if DiffDoc(m, n) == [] {
      assert m.Keys == n.Keys;
    }
  }

  // ----- prefix-freeness -----

  ghost predicate Apart(p: Path, q: Path)
  {
    !(p <= q) && !(q <= p)
  }

  ghost predicate PrefixFree(edits: seq<Edit>)
  {
    forall i, j | 0 <= i < j < |edits| :: Apart(edits[i].path, edits[j].path)
  }

  ghost predicate AllUnder(k: string, edits: seq<Edit>)
  {
    forall i | 0 <= i < |edits| :: edits[i].path != [] && edits[i].path[0] == k
  }

  lemma ApartUnder(k: string, p: Path, q: Path)
    ensures Apart(p, q) ==> Apart([k] + p, [k] + q)
  {
    assert ([k] + p)[1..] == p && ([k] + q)[1..] == q;
  }

  lemma {:induction false} DiffIsPrefixFree(m: Doc, n: Doc)
    ensures PrefixFree(DiffDoc(m, n))
    decreases Obj(m), 2
  {
    DiffKeysPrefixFree(m, n, SortedKeys(m.Keys + n.Keys));
  }

  lemma {:induction false} DiffKeyPrefixFree(m: Doc, n: Doc, k: string)
    requires k in m || k in n
    ensures PrefixFree(DiffKey(m, n, k)) && AllUnder(k, DiffKey(m, n, k))
    decreases Obj(m), 0
  {
    if k in m && k in n && !Equal(m[k], n[k]) && m[k].Obj? && n[k].Obj? {
      var inner := DiffDoc(m[k].m, n[k].m);
      DiffIsPrefixFree(m[k].m, n[k].m);
      forall i, j | 0 <= i < j < |inner| ensures Apart([k] + inner[i].path, [k] + inner[j].path) {
        ApartUnder(k, inner[i].path, inner[j].path);
      }
    }
  }

  lemma {:induction false} DiffKeysPrefixFree(m: Doc, n: Doc, keys: seq<string>)
    requires forall k | k in keys :: k in m || k in n
    requires forall i, j | 0 <= i < j < |keys| :: keys[i] != keys[j]
    ensures PrefixFree(DiffKeys(m, n, keys))
    ensures forall e | e in DiffKeys(m, n, keys) :: e.path != [] && e.path[0] in keys
    decreases Obj(m), 1, |keys|
  {
    if keys != [] {
      var first, rest := DiffKey(m, n, keys[0]), DiffKeys(m, n, keys[1..]);
      DiffKeyPrefixFree(m, n, keys[0]);
      DiffKeysPrefixFree(m, n, keys[1..]);
      assert keys[0] !in keys[1..];
      var all := first + rest;
      forall i, j | 0 <= i < j < |all| ensures Apart(all[i].path, all[j].path) {
        if i < |first| <= j {
          assert rest[j - |first|] in rest;
        }
      }
    }
  }

  // ----- the order of the list -----

  /** At the first key where the paths differ, the first has the smaller one. */
  ghost predicate ComesFirst(p: Path, q: Path)
    decreases p
  {
    p != [] && q != [] && (Precedes(p[0], q[0]) || (p[0] == q[0] && ComesFirst(p[1..], q[1..])))
  }

  ghost predicate InOrder(edits: seq<Edit>)
  {
    forall i, j | 0 <= i < j < |edits| :: ComesFirst(edits[i].path, edits[j].path)
  }

  /** A diff lists its paths in ascending order. */
  lemma {:induction false} DiffIsInOrder(m: Doc, n: Doc)
    ensures InOrder(DiffDoc(m, n))
    decreases Obj(m), 2
  {
    SortedKeysAscend(m.Keys + n.Keys);
    DiffKeysInOrder(m, n, SortedKeys(m.Keys + n.Keys));
  }

  lemma {:induction false} DiffKeyInOrder(m: Doc, n: Doc, k: string)
    requires k in m || k in n
    ensures InOrder(DiffKey(m, n, k))
    decreases Obj(m), 0
  {
    hide Precedes;
    if k in m && k in n && !Equal(m[k], n[k]) && m[k].Obj? && n[k].Obj? {
      var inner := DiffDoc(m[k].m, n[k].m);
      DiffIsInOrder(m[k].m, n[k].m);
      forall i, j | 0 <= i < j < |inner| ensures ComesFirst([k] + inner[i].path, [k] + inner[j].path) {
        assert ([k] + inner[i].path)[1..] == inner[i].path && ([k] + inner[j].path)[1..] == inner[j].path;
      }
    }
  }

  lemma {:induction false} DiffKeysInOrder(m: Doc, n: Doc, keys: seq<string>)
    requires forall k | k in keys :: k in m || k in n
    requires forall i, j | 0 <= i < j < |keys| :: keys[i] != keys[j] && Precedes(keys[i], keys[j])
    ensures InOrder(DiffKeys(m, n, keys))
    decreases Obj(m), 1, |keys|
  {
    hide Precedes, ComesFirst;
    if keys != [] {
      var first, rest := DiffKey(m, n, keys[0]), DiffKeys(m, n, keys[1..]);
      DiffKeyInOrder(m, n, keys[0]);
      DiffKeyPrefixFree(m, n, keys[0]);
      DiffKeysInOrder(m, n, keys[1..]);
      DiffKeysPrefixFree(m, n, keys[1..]);
      var all := first + rest;
      forall i, j | 0 <= i < j < |all| ensures ComesFirst(all[i].path, all[j].path) {
        if i < |first| <= j {
          assert rest[j - |first|] in rest;
          FirstKeyDecides(all[i].path, all[j].path);
        }
      }
    }
  }

  lemma {:induction false} FirstKeyDecides(p: Path, q: Path)
    requires p != [] && q != [] && Precedes(p[0], q[0])
    ensures ComesFirst(p, q)
  {
  }

  // ----- replaying -----

  function Replay(d: Doc, e: Edit): Doc
    requires e.path != []
  {
    if e.op == Removed then Drop(d, e.path) else Set(d, e.path, e.after)
  }

  ghost predicate Rooted(edits: seq<Edit>)
  {
    forall i | 0 <= i < |edits| :: edits[i].path != []
  }

  ghost function ReplayAll(d: Doc, edits: seq<Edit>): Doc
    requires Rooted(edits)
    decreases edits
  {
    if edits == [] then d
    else
      assert edits[0].path != [];
      ReplayAll(Replay(d, edits[0]), edits[1..])
  }

  lemma {:induction false} ReplayConcat(d: Doc, xs: seq<Edit>, ys: seq<Edit>)
    requires Rooted(xs) && Rooted(ys)
    ensures Rooted(xs + ys)
    ensures ReplayAll(d, xs + ys) == ReplayAll(ReplayAll(d, xs), ys)
    decreases xs
  {
    if xs == [] {
      assert xs + ys == ys;
    } else {
      ReplayConcat(Replay(d, xs[0]), xs[1..], ys);
      assert (xs + ys)[1..] == xs[1..] + ys;
    }
  }

  /** Edits under one key happen inside the object at that key. */
  lemma {:induction false} ReplayUnder(d: Doc, k: string, edits: seq<Edit>)
    requires Rooted(edits) && k in d && d[k].Obj?
    ensures Rooted(Under(k, edits))
    ensures ReplayAll(d, Under(k, edits)) == d[k := Obj(ReplayAll(d[k].m, edits))]
    decreases edits
  {
    if edits == [] {
      assert Under(k, edits) == [] && d[k := d[k]] == d;
    } else {
      var e := edits[0];
      var under := Under(k, edits);
      assert ([k] + e.path)[1..] == e.path;
      var next := Replay(d, under[0]);
      assert next == d[k := Obj(Replay(d[k].m, e))];
      ReplayUnder(next, k, edits[1..]);
      assert under[1..] == Under(k, edits[1..]);
      assert next[k := Obj(ReplayAll(next[k].m, edits[1..]))] == d[k := Obj(ReplayAll(d[k].m, edits))];
    }
  }

  /** One key is as the new document has it, and the others are as before. */
  ghost predicate KeyDone(d: Doc, end: Doc, n: Doc, k: string)
  {
    end - {k} == d - {k} && (k in end <==> k in n) && (k in n ==> Agree(end[k], n[k]))
  }

  /** One edit at one key. */
  lemma {:induction false} OneEditReplays(d: Doc, n: Doc, k: string, e: Edit)
    requires e.path == [k] && (e.op == Removed <==> k !in n) && (k in n ==> e.after == n[k])
    ensures Rooted([e]) && KeyDone(d, ReplayAll(d, [e]), n, k)
  {
    assert ReplayAll(d, [e]) == ReplayAll(Replay(d, e), []) == Replay(d, e);
    if k in n {
      AgreeReflexive(n[k]);
    }
  }

  lemma {:induction false} DiffKeyReplays(m: Doc, n: Doc, k: string, d: Doc)
    requires k in m || k in n
    requires (k in d <==> k in m) && (k in m ==> d[k] == m[k])
    ensures Rooted(DiffKey(m, n, k)) && KeyDone(d, ReplayAll(d, DiffKey(m, n, k)), n, k)
    decreases Obj(m), 0
  {
    hide Agree, Equal;
    if k !in m || k !in n {
      OneEditReplays(d, n, k, DiffKey(m, n, k)[0]);
    } else if Equal(m[k], n[k]) {
      EqualAgrees(m[k], n[k]);
    } else if m[k].Obj? && n[k].Obj? {
      DiffReplaysInOrder(m[k].m, n[k].m);
      ReplayUnder(d, k, DiffDoc(m[k].m, n[k].m));
    } else {
      OneEditReplays(d, n, k, DiffKey(m, n, k)[0]);
    }
  }

  lemma {:induction false} DiffKeysReplay(m: Doc, n: Doc, keys: seq<string>, d: Doc)
    requires forall k | k in keys :: k in m || k in n
    requires forall i, j | 0 <= i < j < |keys| :: keys[i] != keys[j]
    requires forall k | k in keys :: (k in d <==> k in m) && (k in m ==> d[k] == m[k])
    ensures Rooted(DiffKeys(m, n, keys))
    ensures var end := ReplayAll(d, DiffKeys(m, n, keys));
            && (forall k | k in keys :: (k in end <==> k in n) && (k in n ==> Agree(end[k], n[k])))
            && (forall k | k !in keys :: (k in end <==> k in d) && (k in d ==> end[k] == d[k]))
    decreases Obj(m), 1, |keys|
  {
    if keys != [] {
      var k, rest := keys[0], keys[1..];
      DiffKeyReplays(m, n, k, d);
      var next := ReplayAll(d, DiffKey(m, n, k));
      OthersUnchanged(d, next, k);
      assert k !in rest;
      DiffKeysReplay(m, n, rest, next);
      ReplayConcat(d, DiffKey(m, n, k), DiffKeys(m, n, rest));
      assert forall x :: x in keys <==> x == k || x in rest;
    }
  }

  lemma OthersUnchanged(d: Doc, next: Doc, k: string)
    requires next - {k} == d - {k}
    ensures forall x | x != k :: (x in next <==> x in d) && (x in d ==> next[x] == d[x])
  {
    forall x | x != k ensures (x in next <==> x in d) && (x in d ==> next[x] == d[x]) {
      assert x in next <==> x in next - {k};
      assert x in d <==> x in d - {k};
      if x in d {
        assert (next - {k})[x] == (d - {k})[x];
      }
    }
  }

  lemma {:induction false} AgreeByMember(m: Doc, n: Doc)
    requires forall k :: (k in m <==> k in n) && (k in n ==> Agree(m[k], n[k]))
    ensures Agree(Obj(m), Obj(n))
  {
    assert m.Keys == n.Keys;
  }

  lemma {:induction false} DiffReplaysInOrder(m: Doc, n: Doc)
    ensures Rooted(DiffDoc(m, n))
    ensures Agree(Obj(ReplayAll(m, DiffDoc(m, n))), Obj(n))
    decreases Obj(m), 2
  {
    hide ReplayAll, DiffKeys, Agree, SortedKeys;
    var keys := SortedKeys(m.Keys + n.Keys);
    DiffKeysReplay(m, n, keys, m);
    assert forall k :: k in keys <==> k in m || k in n;
    AgreeByMember(ReplayAll(m, DiffDoc(m, n)), n);
  }

  // ----- reading the diff backwards -----

  /** The edit that takes back another one. */
  function Undo(e: Edit): Edit
  {
    Edit(e.path, match e.op case Added => Removed case Removed => Added case Changed => Changed, e.after, e.before)
  }

  function UndoAll(edits: seq<Edit>): (r: seq<Edit>)
    ensures |r| == |edits| && forall i | 0 <= i < |edits| :: r[i] == Undo(edits[i])
  {
    seq(|edits|, i requires 0 <= i < |edits| => Undo(edits[i]))
  }

  lemma {:induction false} EqualSymmetric(v: Value, w: Value)
    ensures Equal(v, w) <==> Equal(w, v)
  {
    if v.Arr? && w.Arr? && |v.xs| == |w.xs| {
      forall i | 0 <= i < |v.xs| ensures Equal(v.xs[i], w.xs[i]) <==> Equal(w.xs[i], v.xs[i]) {
        EqualSymmetric(v.xs[i], w.xs[i]);
      }
    } else if v.Obj? && w.Obj? && v.m.Keys == w.m.Keys {
      forall k | k in v.m ensures Equal(v.m[k], w.m[k]) <==> Equal(w.m[k], v.m[k]) {
        EqualSymmetric(v.m[k], w.m[k]);
      }
      assert forall k :: k in v.m <==> k in w.m;
    }
  }

  /** The diff of the same documents the other way round takes every edit back, in the same order. */
  lemma {:induction false} DiffBackwards(m: Doc, n: Doc)
    ensures DiffDoc(n, m) == UndoAll(DiffDoc(m, n))
    decreases Obj(m), 2
  {
    assert m.Keys + n.Keys == n.Keys + m.Keys;
    DiffKeysBackwards(m, n, SortedKeys(m.Keys + n.Keys));
  }

  lemma {:induction false} DiffKeyBackwards(m: Doc, n: Doc, k: string)
    requires k in m || k in n
    ensures DiffKey(n, m, k) == UndoAll(DiffKey(m, n, k))
    decreases Obj(m), 0
  {
    hide Equal, DiffDoc, Under, UndoAll;
    if k !in m || k !in n {
      UndoOne(DiffKey(m, n, k)[0]);
    } else {
      EqualSymmetric(m[k], n[k]);
      if Equal(m[k], n[k]) {
        UndoNone();
      } else if m[k].Obj? && n[k].Obj? {
        DiffBackwards(m[k].m, n[k].m);
        UndoUnder(k, DiffDoc(m[k].m, n[k].m));
      } else {
        UndoOne(DiffKey(m, n, k)[0]);
      }
    }
  }

  lemma UndoNone()
    ensures UndoAll([]) == []
  {
  }

  lemma UndoOne(e: Edit)
    ensures UndoAll([e]) == [Undo(e)]
  {
  }

  lemma UndoUnder(k: string, edits: seq<Edit>)
    ensures UndoAll(Under(k, edits)) == Under(k, UndoAll(edits))
  {
  }

  lemma {:induction false} DiffKeysBackwards(m: Doc, n: Doc, keys: seq<string>)
    requires forall k | k in keys :: k in m || k in n
    ensures DiffKeys(n, m, keys) == UndoAll(DiffKeys(m, n, keys))
    decreases Obj(m), 1, |keys|
  {
    hide DiffKey;
    if keys != [] {
      DiffKeyBackwards(m, n, keys[0]);
      DiffKeysBackwards(m, n, keys[1..]);
    }
  }

  // ----- the values shown -----

  /** There is a member at the end of the path. */
  predicate Present(d: Doc, p: Path)
    requires p != []
    decreases p
  {
    p[0] in d && (|p| == 1 || (d[p[0]].Obj? && Present(d[p[0]].m, p[1..])))
  }

  /** An edit shows what either document has at its path: nothing in the one it was added to, nothing in
      the one it was removed from, and values that differ and are not both objects where it changed. */
  ghost predicate Shows(m: Doc, n: Doc, e: Edit)
  {
    && e.path != []
    && (Present(m, e.path) <==> e.op != Added) && (Present(n, e.path) <==> e.op != Removed)
    && e.before == Get(m, e.path) && e.after == Get(n, e.path)
    && (e.op == Changed ==> !Equal(e.before, e.after) && !(e.before.Obj? && e.after.Obj?))
  }

  /** Every edit of a diff shows the values of the two documents at its path. */
  lemma {:induction false} DiffShows(m: Doc, n: Doc)
    ensures forall e | e in DiffDoc(m, n) :: Shows(m, n, e)
    decreases Obj(m), 2
  {
    DiffKeysShow(m, n, SortedKeys(m.Keys + n.Keys));
  }

  lemma {:induction false} DiffKeysShow(m: Doc, n: Doc, keys: seq<string>)
    requires forall k | k in keys :: k in m || k in n
    ensures forall e | e in DiffKeys(m, n, keys) :: Shows(m, n, e)
    decreases Obj(m), 1, |keys|
  {
    hide Shows;
    if keys != [] {
      DiffKeyShows(m, n, keys[0]);
      DiffKeysShow(m, n, keys[1..]);
    }
  }

  lemma {:induction false} DiffKeyShows(m: Doc, n: Doc, k: string)
    requires k in m || k in n
    ensures forall e | e in DiffKey(m, n, k) :: Shows(m, n, e)
    decreases Obj(m), 0
  {
    hide Equal;
    if k in m && k in n && !Equal(m[k], n[k]) && m[k].Obj? && n[k].Obj? {
      var inner := DiffDoc(m[k].m, n[k].m);
      DiffShows(m[k].m, n[k].m);
      forall e | e in Under(k, inner) ensures Shows(m, n, e) {
        var i :| 0 <= i < |Under(k, inner)| && Under(k, inner)[i] == e;
        assert inner[i] in inner && e == inner[i].(path := [k] + inner[i].path);
        assert e.path[1..] == inner[i].path;
      }
    }
  }
}
