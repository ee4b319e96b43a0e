/** What two documents with the same oid have in common, said of the documents themselves. */
module Contents {
  import opened Documents
  import opened Hashing

  /** The integer a number is, if it is one. */
  function IntegerOf(v: Value): Option<int>
  {
    match v
    case Int(i) => Some(i)
    case Num(r) => if r == r.Floor as real then Some(r.Floor) else None
    case Dec(r, _) => if r == r.Floor as real then Some(r.Floor) else None
    case _ => None
  }

  /** The text a value stands for in the hash: its own, a date's to the millisecond, or the decimal text
      of a number that is no integer. */
  function TextOf(lib: Lib, v: Value): Option<string>
  {
    match v
    case Str(s) => Some(lib.nfc(s))
    case Time(us) => Some(lib.isoMillis(us / 1000))
    case Other(_, text) => Some(text)
    case Num(r) => if r == r.Floor as real then None else Some(lib.decimalText(r))
    case Dec(r, _) => if r == r.Floor as real then None else Some(lib.decimalText(r))
    case _ => None
  }

  /** The same integer, the same text, the same truth value, or the same items or members at any depth. A
      null member is as good as none. */
  predicate Alike(lib: Lib, v: Value, w: Value)
  {
    if IntegerOf(v).Some? || IntegerOf(w).Some? then IntegerOf(v) == IntegerOf(w)
    else if TextOf(lib, v).Some? || TextOf(lib, w).Some? then TextOf(lib, v) == TextOf(lib, w)
    else
      match v
      case Arr(xs) => w.Arr? && |xs| == |w.xs| && forall i | 0 <= i < |xs| :: Alike(lib, xs[i], w.xs[i])
      case Obj(m) =>
        && w.Obj?
        && (forall k | k in m && m[k] != Null :: k in w.m && Alike(lib, m[k], w.m[k]))
        && (forall k | k in w.m && w.m[k] != Null :: k in m && m[k] != Null)
      case _ => v == w
  }

  /** No NaN and no infinity at any depth. */
  predicate Finite(v: Value)
  {
    match v
    case NonFinite => false
    case Arr(xs) => forall i | 0 <= i < |xs| :: Finite(xs[i])
    case Obj(m) => forall k | k in m :: Finite(m[k])
    case _ => true
  }

  lemma {:induction false} FiniteNormal(lib: Lib, v: Value)
    ensures Normalize(lib, v).Some? <==> Finite(v)
  {
    match v
    case Arr(xs) =>
      forall i | 0 <= i < |xs| ensures Normalize(lib, xs[i]).Some? <==> Finite(xs[i]) {
        FiniteNormal(lib, xs[i]);
      }
    case Obj(m) =>
      forall k | k in m ensures Normalize(lib, m[k]).Some? <==> Finite(m[k]) {
        FiniteNormal(lib, m[k]);
      }
    case _ =>
  }

  lemma {:induction false} AlikeItems(lib: Lib, xs: seq<Value>, ys: seq<Value>)
    requires Finite(Arr(xs)) && Finite(Arr(ys))
    requires |xs| == |ys| ==> forall i | 0 <= i < |xs| ::
               Normalize(lib, xs[i]) == Normalize(lib, ys[i]) <==> Alike(lib, xs[i], ys[i])
    ensures Normalize(lib, Arr(xs)) == Normalize(lib, Arr(ys)) <==> Alike(lib, Arr(xs), Arr(ys))
  {
    FiniteNormal(lib, Arr(xs));
    FiniteNormal(lib, Arr(ys));
    var a, b := Normalize(lib, Arr(xs)).value.xs, Normalize(lib, Arr(ys)).value.xs;
    assert |a| == |xs| && |b| == |ys|;
    assert forall i | 0 <= i < |xs| :: Normalize(lib, xs[i]) == Some(a[i]);
    assert forall i | 0 <= i < |ys| :: Normalize(lib, ys[i]) == Some(b[i]);
    if |xs| == |ys| {
      assert a == b <==> forall i | 0 <= i < |xs| :: a[i] == b[i];
    }
  }

  lemma {:induction false} AlikeObjects(lib: Lib, m: Doc, n: Doc)
    ensures Alike(lib, Obj(m), Obj(n)) <==>
              && (forall k | k in m && m[k] != Null :: k in n && Alike(lib, m[k], n[k]))
              && (forall k | k in n && n[k] != Null :: k in m && m[k] != Null)
  {
  }

  lemma {:induction false} AlikeMembers(lib: Lib, m: Doc, n: Doc)
    requires Finite(Obj(m)) && Finite(Obj(n))
    requires forall k | k in m && k in n :: Normalize(lib, m[k]) == Normalize(lib, n[k]) <==> Alike(lib, m[k], n[k])
    ensures Normalize(lib, Obj(m)) == Normalize(lib, Obj(n)) <==> Alike(lib, Obj(m), Obj(n))
  {
    FiniteNormal(lib, Obj(m));
    FiniteNormal(lib, Obj(n));
    hide Normalize, Alike, Finite;
    NormalMembers(lib, m);
    NormalMembers(lib, n);
    AlikeObjects(lib, m, n);
    var a, b := Normalize(lib, Obj(m)).value.m, Normalize(lib, Obj(n)).value.m;
    if Alike(lib, Obj(m), Obj(n)) {
      forall k ensures (k in a <==> k in b) && (k in a ==> a[k] == b[k]) {
        if k in m && k in n && m[k] != Null {
          NullAlone(lib, m[k], n[k]);
        }
      }
      assert a == b;
    }
    if a == b {
      forall k | k in m && m[k] != Null ensures k in n && n[k] != Null && Normalize(lib, m[k]) == Normalize(lib, n[k]) {
        assert k in a && k in b;
      }
      forall k | k in n && n[k] != Null ensures k in m && m[k] != Null {
        assert k in b && k in a;
      }
    }
  }

  lemma {:induction false} NullAlone(lib: Lib, v: Value, w: Value)
    ensures v != Null && Alike(lib, v, w) ==> w != Null
  {
  }

  /** Finite values have the same normal tree exactly when they are alike. */
  lemma {:induction false} AlikeNormal(lib: Lib, v: Value, w: Value)
    requires Finite(v) && Finite(w)
    ensures Normalize(lib, v) == Normalize(lib, w) <==> Alike(lib, v, w)
    decreases v
  {
    if v.Arr? && w.Arr? {
      if |v.xs| == |w.xs| {
        forall i | 0 <= i < |v.xs|
          ensures Normalize(lib, v.xs[i]) == Normalize(lib, w.xs[i]) <==> Alike(lib, v.xs[i], w.xs[i])
        {
          AlikeNormal(lib, v.xs[i], w.xs[i]);
        }
      }
      AlikeItems(lib, v.xs, w.xs);
    } else if v.Obj? && w.Obj? {
      forall k | k in v.m && k in w.m
        ensures Normalize(lib, v.m[k]) == Normalize(lib, w.m[k]) <==> Alike(lib, v.m[k], w.m[k])
      {
        AlikeNormal(lib, v.m[k], w.m[k]);
      }
      AlikeMembers(lib, v.m, w.m);
    } else {
      FiniteNormal(lib, v);
      FiniteNormal(lib, w);
    }
  }

  /** A document has an oid exactly when its hashed part holds no NaN and no infinity. */
  lemma HashableIff(c: Coll, d: Doc)
    ensures HashDoc(c, d).Some? <==> Finite(Obj(Strip(c, d)))
  {
    FiniteNormal(c.lib, Obj(Strip(c, d)));
  }

  /** Two documents have the same oid exactly when what is hashed of them is alike. */
  lemma ContentDecides(c: Coll, d: Doc, e: Doc)
    requires HashDoc(c, d).Some? && HashDoc(c, e).Some?
    ensures HashDoc(c, d) == HashDoc(c, e) <==> Alike(c.lib, Obj(Strip(c, d)), Obj(Strip(c, e)))
  {
    HashableIff(c, d);
    HashableIff(c, e);
    AlikeNormal(c.lib, Obj(Strip(c, d)), Obj(Strip(c, e)));
    OidIdentifiesNormalForm(c, d, e);
  }

  // ----- when alike means equal -----

  /** Values of which the hash loses nothing but null members and the way an integer is written. */
  predicate Exact(lib: Lib, v: Value)
  {
    match v
    case Null => true
    case Bool(_) => true
    case Int(_) => true
    case Num(r) => r == r.Floor as real
    case Str(s) => lib.nfc(s) == s
    case Arr(xs) => forall i | 0 <= i < |xs| :: Exact(lib, xs[i])
    case Obj(m) => forall k | k in m :: Exact(lib, m[k])
    case _ => false
  }

  lemma {:induction false} ExactFinite(lib: Lib, v: Value)
    requires Exact(lib, v)
    ensures Finite(v)
  {
    match v
    case Arr(xs) =>
      forall i | 0 <= i < |xs| ensures Finite(xs[i]) { ExactFinite(lib, xs[i]); }
    case Obj(m) =>
      forall k | k in m ensures Finite(m[k]) { ExactFinite(lib, m[k]); }
    case _ =>
  }

  lemma {:induction false} TidyItems(lib: Lib, xs: seq<Value>, ys: seq<Value>)
    requires |xs| == |ys| ==> forall i | 0 <= i < |xs| :: Alike(lib, xs[i], ys[i]) <==> Tidy(xs[i]) == Tidy(ys[i])
    ensures Alike(lib, Arr(xs), Arr(ys)) <==> Tidy(Arr(xs)) == Tidy(Arr(ys))
  {
    var a, b := Tidy(Arr(xs)).xs, Tidy(Arr(ys)).xs;
    assert |a| == |xs| && |b| == |ys|;
    assert forall i | 0 <= i < |xs| :: a[i] == Tidy(xs[i]);
    assert forall i | 0 <= i < |ys| :: b[i] == Tidy(ys[i]);
    if |xs| == |ys| {
      assert a == b <==> forall i | 0 <= i < |xs| :: a[i] == b[i];
    }
  }

  lemma {:induction false} TidyNotNull(v: Value)
    ensures Tidy(v) == Null <==> v == Null
  {
  }

  lemma {:induction false} TidyMembers(lib: Lib, m: Doc, n: Doc)
    requires forall k | k in m && k in n :: Alike(lib, m[k], n[k]) <==> Tidy(m[k]) == Tidy(n[k])
    ensures Alike(lib, Obj(m), Obj(n)) <==> TidyDoc(m) == TidyDoc(n)
  {
    hide Alike, Tidy;
    AlikeObjects(lib, m, n);
    var a, b := TidyDoc(m), TidyDoc(n);
    forall k | k in m && k in n ensures Tidy(m[k]) == Tidy(n[k]) ==> (m[k] == Null <==> n[k] == Null) {
      TidyNotNull(m[k]);
      TidyNotNull(n[k]);
    }
    if Alike(lib, Obj(m), Obj(n)) {
      assert a.Keys == b.Keys;
      assert a == b;
    }
    if a == b {
      forall k | k in m && m[k] != Null ensures k in n && n[k] != Null && Tidy(m[k]) == Tidy(n[k]) {
        assert k in a && k in b && a[k] == b[k];
      }
      forall k | k in n && n[k] != Null ensures k in m && m[k] != Null {
        assert k in b && k in a;
      }
    }
  }

  lemma {:induction false} AlikeExact(lib: Lib, v: Value, w: Value)
    requires Exact(lib, v) && Exact(lib, w)
    ensures Alike(lib, v, w) <==> Tidy(v) == Tidy(w)
    decreases v
  {
    if v.Arr? && w.Arr? {
      if |v.xs| == |w.xs| {
        forall i | 0 <= i < |v.xs| ensures Alike(lib, v.xs[i], w.xs[i]) <==> Tidy(v.xs[i]) == Tidy(w.xs[i]) {
          AlikeExact(lib, v.xs[i], w.xs[i]);
        }
      }
      TidyItems(lib, v.xs, w.xs);
    } else if v.Obj? && w.Obj? {
      forall k | k in v.m && k in w.m ensures Alike(lib, v.m[k], w.m[k]) <==> Tidy(v.m[k]) == Tidy(w.m[k]) {
        AlikeExact(lib, v.m[k], w.m[k]);
      }
      TidyMembers(lib, v.m, w.m);
      assert Tidy(v) == Obj(TidyDoc(v.m)) && Tidy(w) == Obj(TidyDoc(w.m));
    }
  }

  /** For JSON documents of normal texts and integral numbers: the same oid means the same hashed content,
      but for null members and for integers written as floats. */
  lemma JsonContentDecides(c: Coll, d: Doc, e: Doc)
    requires Exact(c.lib, Obj(Strip(c, d))) && Exact(c.lib, Obj(Strip(c, e)))
    ensures HashDoc(c, d).Some? && HashDoc(c, e).Some?
    ensures HashDoc(c, d) == HashDoc(c, e) <==> TidyDoc(Strip(c, d)) == TidyDoc(Strip(c, e))
  {
    ExactFinite(c.lib, Obj(Strip(c, d)));
    ExactFinite(c.lib, Obj(Strip(c, e)));
    HashableIff(c, d);
    HashableIff(c, e);
    ContentDecides(c, d, e);
    AlikeExact(c.lib, Obj(Strip(c, d)), Obj(Strip(c, e)));
    assert Tidy(Obj(Strip(c, d))) == Obj(TidyDoc(Strip(c, d))) && Tidy(Obj(Strip(c, e))) == Obj(TidyDoc(Strip(c, e)));
  }

  // ----- the other values -----

  ghost predicate Injective<T(!new)>(f: T -> string)
  {
    forall x, y | f(x) == f(y) :: x == y
  }

  /** With injective formatting, numbers are alike when equal, dates when they fall in one millisecond. */
  lemma {:induction false} NumbersAndDates(lib: Lib, r: real, q: real, a: int, b: int)
    ensures Injective(lib.decimalText) ==> (Alike(lib, Num(r), Num(q)) <==> r == q)
    ensures Injective(lib.isoMillis) ==> (Alike(lib, Time(a), Time(b)) <==> a / 1000 == b / 1000)
  {
    if r == r.Floor as real && q == q.Floor as real && r.Floor == q.Floor {
      assert r == q;
    }
  }

  /** A text is alike to another with the same normal form, to the number that is no integer and has it as
      its decimal text, to a date printed so, and to nothing else but a further type with that text. */
  lemma {:induction false} TextIsAlike(lib: Lib, s: string, v: Value)
    ensures Alike(lib, Str(s), v) <==>
              match v
              case Str(t) => lib.nfc(t) == lib.nfc(s)
              case Num(r) => r != r.Floor as real && lib.decimalText(r) == lib.nfc(s)
              case Dec(r, _) => r != r.Floor as real && lib.decimalText(r) == lib.nfc(s)
              case Time(us) => lib.isoMillis(us / 1000) == lib.nfc(s)
              case Other(_, text) => text == lib.nfc(s)
              case _ => false
  {
  }

  /** Concrete input: a number that is no integer has the oid of its own text. */
  lemma NumberHashesLikeItsText(c: Coll, d: Doc, e: Doc)
    requires !c.Ignored("x") && c.ignorePaths == c.secretFields == []
    requires c.lib.nfc(c.lib.decimalText(1.5)) == c.lib.decimalText(1.5)
    requires d == map["x" := Num(1.5)] && e == map["x" := Str(c.lib.decimalText(1.5))]
    ensures HashDoc(c, d).Some? && HashDoc(c, d) == HashDoc(c, e)
  {
    hide HashDoc;
    assert RemoveIgnored(c, d) == d == Strip(c, d) && RemoveIgnored(c, e) == e == Strip(c, e);
    assert 1.5 != 1.5.Floor as real;
    TextIsAlike(c.lib, c.lib.decimalText(1.5), Num(1.5));
    assert Alike(c.lib, d["x"], e["x"]) && Finite(d["x"]) && Finite(e["x"]);
    HashableIff(c, d);
    HashableIff(c, e);
    AlikeObjects(c.lib, d, e);
    ContentDecides(c, d, e);
  }
}
