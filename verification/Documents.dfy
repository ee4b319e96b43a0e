/** JSON-like documents, dotted paths, and the edits cfgit makes at the end of a path. */
module Documents {
  import opened Texts

  datatype Option<+T> = None | Some(value: T)

  /** A stored value. A document is an object, so member order is not part of it.
      `Num` is a float, `NonFinite` a float NaN or infinity, `Dec` a BSON decimal with its
      digits as text, `Time` an instant in microseconds, `Other` any further type (object ids,
      bytes) with its text. */
  datatype Value =
    | Null
    | Bool(b: bool)
    | Int(i: int)
    | Num(r: real)
    | NonFinite
    | Dec(d: real, digits: string)
    | Str(s: string)
    | Time(micros: int)
    | Other(kind: string, text: string)
    | Arr(xs: seq<Value>)
    | Obj(m: map<string, Value>)

  type Doc = map<string, Value>

  /** A path as the list of its segments. */
  type Path = seq<string>

  // ----- dotted text -----

  function Split(s: string): (parts: seq<string>)
    ensures |parts| >= 1
  {
    SplitOn(s, '.')
  }

  function Join(parts: seq<string>): string
  {
    JoinWith(parts, '.')
  }

  ghost predicate Plain(part: string)
  {
    part != "" && forall i | 0 <= i < |part| :: part[i] !in {'.', '[', ']'}
  }

  ghost predicate PlainPath(parts: seq<string>)
  {
    forall i | 0 <= i < |parts| :: Plain(parts[i])
  }

  /** Splitting a dotted text gives back the segments it was joined from. */
  lemma SplitJoin(parts: seq<string>)
    requires parts != [] && PlainPath(parts)
    ensures Split(Join(parts)) == parts
  {
    SplitJoined(parts, '.');
  }

  function NonEmpty(parts: seq<string>): seq<string>
  {
    if parts == [] then []
    else (if parts[0] == "" then [] else [parts[0]]) + NonEmpty(parts[1..])
  }

  lemma {:induction false} NonEmptyPlain(parts: seq<string>)
    requires forall i | 0 <= i < |parts| :: parts[i] != ""
    ensures NonEmpty(parts) == parts
  {
    if parts != [] {
      NonEmptyPlain(parts[1..]);
    }
  }

  // ----- removing, reading and writing at a path -----

  /** Removes the member at the end of `p`; a path that leaves the objects removes nothing. */
  function Drop(d: Doc, p: Path): Doc
    decreases p
  {
    if p == [] then d
    else if |p| == 1 then d - {p[0]}
    else if p[0] in d && d[p[0]].Obj? then d[p[0] := Obj(Drop(d[p[0]].m, p[1..]))]
    else d
  }

  function DropDotted(d: Doc, dotted: string): Doc
  {
    Drop(d, NonEmpty(Split(dotted)))
  }

  function DropAll(d: Doc, dotted: seq<string>): Doc
  {
    if dotted == [] then d else DropAll(DropDotted(d, dotted[0]), dotted[1..])
  }

  /** The value at `p`, or `Null` where the path is absent (the source returns None for both). */
  function Get(d: Doc, p: Path): Value
    requires p != []
    decreases p
  {
    if p[0] !in d then Null
    else if |p| == 1 then d[p[0]]
    else if d[p[0]].Obj? then Get(d[p[0]].m, p[1..])
    else Null
  }

  /** Writes `v` at `p`; a step that is missing or not an object becomes an empty object. */
  function Set(d: Doc, p: Path, v: Value): Doc
    requires p != []
    decreases p
  {
    if |p| == 1 then d[p[0] := v]
    else
      var inner := if p[0] in d && d[p[0]].Obj? then d[p[0]].m else map[];
      d[p[0] := Obj(Set(inner, p[1..], v))]
  }

  /** Every proper prefix of `p` leads to an object of `d`. */
  predicate HasParent(d: Doc, p: Path)
    requires p != []
    decreases p
  {
    |p| == 1 || (p[0] in d && d[p[0]].Obj? && HasParent(d[p[0]].m, p[1..]))
  }

  // ----- laws of removal -----

  lemma {:induction false} DropCommutes(d: Doc, p: Path, q: Path)
    ensures Drop(Drop(d, p), q) == Drop(Drop(d, q), p)
    decreases p
  {
    if |p| > 1 && |q| > 1 && p[0] == q[0] && p[0] in d && d[p[0]].Obj? {
      DropCommutes(d[p[0]].m, p[1..], q[1..]);
    }
  }

  lemma {:induction false} DropIdempotent(d: Doc, p: Path)
    ensures Drop(Drop(d, p), p) == Drop(d, p)
    decreases p
  {
    if |p| > 1 && p[0] in d && d[p[0]].Obj? {
      DropIdempotent(d[p[0]].m, p[1..]);
    }
  }

  lemma {:induction false} DropAllOne(d: Doc, ps: seq<string>, p: string)
    ensures DropAll(DropDotted(d, p), ps) == DropDotted(DropAll(d, ps), p)
  {
    if ps != [] {
      DropCommutes(d, NonEmpty(Split(p)), NonEmpty(Split(ps[0])));
      DropAllOne(DropDotted(d, ps[0]), ps[1..], p);
    }
  }

  lemma {:induction false} DropAllAbsorbs(d: Doc, ps: seq<string>, p: string)
    requires p in ps
    ensures DropAll(DropDotted(d, p), ps) == DropAll(d, ps)
  {
    if ps[0] == p {
      DropIdempotent(d, NonEmpty(Split(p)));
    } else {
      DropCommutes(d, NonEmpty(Split(p)), NonEmpty(Split(ps[0])));
      DropAllAbsorbs(DropDotted(d, ps[0]), ps[1..], p);
    }
  }

  /** Two lists of removals can be done in either order. */
  lemma {:induction false} DropAllCommutes(d: Doc, ps: seq<string>, qs: seq<string>)
    ensures DropAll(DropAll(d, ps), qs) == DropAll(DropAll(d, qs), ps)
  {
    if ps != [] {
      DropAllCommutes(DropDotted(d, ps[0]), ps[1..], qs);
      DropAllOne(d, qs, ps[0]);
    }
  }

  lemma {:induction false} DropAllTwice(d: Doc, ps: seq<string>, qs: seq<string>)
    requires forall q | q in qs :: q in ps
    ensures DropAll(DropAll(d, qs), ps) == DropAll(d, ps)
  {
    if qs != [] {
      DropAllTwice(DropDotted(d, qs[0]), ps, qs[1..]);
      DropAllAbsorbs(d, ps, qs[0]);
    }
  }

  // ----- what a removal leaves to be read -----

  /** Neither path leads to the other. */
  ghost predicate Beside(p: Path, q: Path)
  {
    !(p <= q) && !(q <= p)
  }

  /** Nothing is left at or below the removed path, and everything beside it is as it was. */
  lemma {:induction false} DropReads(d: Doc, p: Path, g: Path)
    requires p != [] && g != []
    ensures p <= g ==> Get(Drop(d, p), g) == Null
    ensures Beside(p, g) ==> Get(Drop(d, p), g) == Get(d, g)
    decreases p
  {
    assert p == [p[0]] + p[1..] && g == [g[0]] + g[1..];
    if |p| > 1 && |g| > 1 && p[0] == g[0] && p[0] in d && d[p[0]].Obj? {
      DropReads(d[p[0]].m, p[1..], g[1..]);
    }
  }

  ghost predicate LeadsTo(ps: seq<string>, g: Path)
  {
    exists i | 0 <= i < |ps| :: NonEmpty(Split(ps[i])) != [] && NonEmpty(Split(ps[i])) <= g
  }

  ghost predicate AllBeside(ps: seq<string>, g: Path)
  {
    forall i | 0 <= i < |ps| :: NonEmpty(Split(ps[i])) == [] || Beside(NonEmpty(Split(ps[i])), g)
  }

  lemma {:induction false} DropKeepsNull(d: Doc, p: Path, g: Path)
    requires g != [] && Get(d, g) == Null
    ensures Get(Drop(d, p), g) == Null
    decreases p
  {
    if |p| > 1 && |g| > 1 && p[0] == g[0] && p[0] in d && d[p[0]].Obj? {
      DropKeepsNull(d[p[0]].m, p[1..], g[1..]);
    }
  }

  lemma {:induction false} DropAllKeepsNull(d: Doc, ps: seq<string>, g: Path)
    requires g != [] && Get(d, g) == Null
    ensures Get(DropAll(d, ps), g) == Null
  {
    if ps != [] {
      DropKeepsNull(d, NonEmpty(Split(ps[0])), g);
      DropAllKeepsNull(DropDotted(d, ps[0]), ps[1..], g);
    }
  }

  /** After all removals nothing is left at or below any of the paths, and everything beside all of them is
      as it was. */
  lemma {:induction false} DropAllReads(d: Doc, ps: seq<string>, g: Path)
    requires g != []
    ensures LeadsTo(ps, g) ==> Get(DropAll(d, ps), g) == Null
    ensures AllBeside(ps, g) ==> Get(DropAll(d, ps), g) == Get(d, g)
  {
    if ps != [] {
      var q, next := NonEmpty(Split(ps[0])), DropDotted(d, ps[0]);
      if q != [] {
        DropReads(d, q, g);
      }
      DropAllReads(next, ps[1..], g);
      if q != [] && q <= g {
        DropAllKeepsNull(next, ps[1..], g);
      } else if i :| 0 <= i < |ps| && NonEmpty(Split(ps[i])) != [] && NonEmpty(Split(ps[i])) <= g {
        assert ps[1..][i - 1] == ps[i];
      }
      assert forall i | 0 <= i < |ps[1..]| :: ps[1..][i] == ps[i + 1];
    }
  }
}
