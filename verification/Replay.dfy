/** The diff as the source prints it, with dotted paths, replayed in any order with the dotted
    edits of the engine. */
module Replay {
  import opened Texts
  import opened Canonical
  import opened Documents
  import opened Hashing
  import opened Store
  import opened DocDiff

  // ----- edits at paths that lie apart commute -----

  lemma {:induction false} SetInside(d: Doc, p: Path, v: Value)
    requires |p| > 1 && p[0] in d && d[p[0]].Obj?
    ensures Set(d, p, v) == d[p[0] := Obj(Set(d[p[0]].m, p[1..], v))]
    ensures Drop(d, p) == d[p[0] := Obj(Drop(d[p[0]].m, p[1..]))]
  {
  }

  lemma {:induction false} SetSetCommute(d: Doc, p: Path, v: Value, q: Path, w: Value)
    requires p != [] && q != [] && Apart(p, q) && HasParent(d, p) && HasParent(d, q)
    ensures Set(Set(d, p, v), q, w) == Set(Set(d, q, w), p, v)
    decreases p
  {
    if p[0] == q[0] {
      hide Set;
      ApartTail(p, q);
      var inner := d[p[0]].m;
      SetSetCommute(inner, p[1..], v, q[1..], w);
      SetInside(d, p, v);
      SetInside(d, q, w);
      SetInside(d[p[0] := Obj(Set(inner, p[1..], v))], q, w);
      SetInside(d[p[0] := Obj(Set(inner, q[1..], w))], p, v);
    } else {
      DifferentMembers(d, p, v, q, w);
    }
  }

  /** A write and a removal change one member, and only look at that member. */
  lemma {:induction false} OneMember(d: Doc, e: Doc, p: Path, v: Value)
    requires p != [] && HasParent(d, p) && (p[0] in e <==> p[0] in d) && (p[0] in d ==> e[p[0]] == d[p[0]])
    ensures p[0] in Set(d, p, v) && Set(e, p, v) == e[p[0] := Set(d, p, v)[p[0]]]
    ensures if |p| == 1 then Drop(e, p) == e - {p[0]}
            else p[0] in Drop(d, p) && Drop(e, p) == e[p[0] := Drop(d, p)[p[0]]]
  {
  }

  lemma {:induction false} DifferentMembers(d: Doc, p: Path, v: Value, q: Path, w: Value)
    requires p != [] && q != [] && p[0] != q[0] && HasParent(d, p) && HasParent(d, q)
    ensures Set(Set(d, p, v), q, w) == Set(Set(d, q, w), p, v)
    ensures Drop(Set(d, p, v), q) == Set(Drop(d, q), p, v)
  {
    hide Set, Drop, HasParent;
    OneMember(d, d, p, v);
    OneMember(d, d, q, w);
    OneMember(d, Set(d, p, v), q, w);
    OneMember(d, Set(d, q, w), p, v);
    OneMember(d, Drop(d, q), p, v);
    var a, b := Set(d, p, v)[p[0]], Set(d, q, w)[q[0]];
    assert d[p[0] := a][q[0] := b] == d[q[0] := b][p[0] := a];
    if |q| == 1 {
      assert d[p[0] := a] - {q[0]} == (d - {q[0]})[p[0] := a];
    } else {
      var c := Drop(d, q)[q[0]];
      assert d[p[0] := a][q[0] := c] == d[q[0] := c][p[0] := a];
    }
  }

  lemma {:induction false} SetDropCommute(d: Doc, p: Path, v: Value, q: Path)
    requires p != [] && q != [] && Apart(p, q) && HasParent(d, p) && HasParent(d, q)
    ensures Drop(Set(d, p, v), q) == Set(Drop(d, q), p, v)
    decreases p
  {
    if p[0] == q[0] {
      hide Set, Drop;
      ApartTail(p, q);
      var inner := d[p[0]].m;
      SetDropCommute(inner, p[1..], v, q[1..]);
      SetInside(d, p, v);
      SetInside(d, q, v);
      SetInside(d[p[0] := Obj(Set(inner, p[1..], v))], q, v);
      SetInside(d[p[0] := Obj(Drop(inner, q[1..]))], p, v);
    } else {
      DifferentMembers(d, p, v, q, v);
    }
  }

  lemma ApartTail(p: Path, q: Path)
    requires p != [] && q != [] && Apart(p, q) && p[0] == q[0]
    ensures |p| > 1 && |q| > 1 && Apart(p[1..], q[1..])
  {
    assert p == [p[0]] + p[1..] && q == [q[0]] + q[1..];
  }

  lemma {:induction false} ReplayCommutes(d: Doc, e: Edit, f: Edit)
    requires e.path != [] && f.path != [] && Apart(e.path, f.path)
    requires HasParent(d, e.path) && HasParent(d, f.path)
    ensures Replay(Replay(d, e), f) == Replay(Replay(d, f), e)
  {
    if e.op == Removed && f.op == Removed {
      DropCommutes(d, e.path, f.path);
    } else if e.op == Removed {
      SetDropCommute(d, f.path, f.after, e.path);
    } else if f.op == Removed {
      SetDropCommute(d, e.path, e.after, f.path);
    } else {
      SetSetCommute(d, e.path, e.after, f.path, f.after);
    }
  }

  lemma {:induction false} ParentKept(d: Doc, p: Path, v: Value, q: Path)
    requires p != [] && q != [] && Apart(p, q) && HasParent(d, p) && HasParent(d, q)
    ensures HasParent(Set(d, p, v), q) && HasParent(Drop(d, p), q)
    decreases p
  {
    if p[0] == q[0] {
      ApartTail(p, q);
      ParentKept(d[p[0]].m, p[1..], v, q[1..]);
    }
  }

  // ----- any order -----

  ghost predicate Placed(d: Doc, edits: seq<Edit>)
  {
    forall i | 0 <= i < |edits| :: edits[i].path != [] && HasParent(d, edits[i].path)
  }

  lemma {:induction false} PlacedAfter(d: Doc, e: Edit, edits: seq<Edit>)
    requires Placed(d, edits) && e.path != [] && HasParent(d, e.path)
    requires forall i | 0 <= i < |edits| :: Apart(e.path, edits[i].path)
    ensures Placed(Replay(d, e), edits)
  {
    forall i | 0 <= i < |edits| ensures HasParent(Replay(d, e), edits[i].path) {
      ParentKept(d, e.path, e.after, edits[i].path);
    }
  }

  function Without<T>(xs: seq<T>, i: nat): seq<T>
    requires i < |xs|
  {
    xs[..i] + xs[i + 1..]
  }

  /** An edit can be replayed first. */
  lemma {:induction false} MoveToFront(d: Doc, edits: seq<Edit>, i: nat)
    requires Placed(d, edits) && PrefixFree(edits) && i < |edits|
    ensures Rooted(edits) && Rooted(Without(edits, i))
    ensures ReplayAll(d, edits) == ReplayAll(Replay(d, edits[i]), Without(edits, i))
    decreases i
  {
    hide Replay, Apart, HasParent;
    if i == 0 {
      assert Without(edits, 0) == edits[1..];
    } else {
      var first, rest := edits[0], edits[1..];
      assert Apart(first.path, edits[i].path);
      forall j | 0 <= j < |rest| ensures Apart(first.path, rest[j].path) {
        assert Apart(edits[0].path, edits[j + 1].path);
      }
      PlacedAfter(d, first, rest);
      MoveToFront(Replay(d, first), rest, i - 1);
      ReplayCommutes(d, first, edits[i]);
      assert Without(edits, i)[0] == first && Without(edits, i)[1..] == Without(rest, i - 1);
    }
  }

  lemma WithoutIs(edits: seq<Edit>, i: nat)
    requires i < |edits| && PrefixFree(edits)
    ensures PrefixFree(Without(edits, i))
    ensures multiset(Without(edits, i)) == multiset(edits) - multiset{edits[i]}
  {
    var rest := Without(edits, i);
    forall j, k | 0 <= j < k < |rest| ensures Apart(rest[j].path, rest[k].path) {
      assert Apart(edits[if j < i then j else j + 1].path, edits[if k < i then k else k + 1].path);
    }
    assert edits == edits[..i] + [edits[i]] + edits[i + 1..];
  }

  lemma WithoutKeeps(d: Doc, edits: seq<Edit>, i: nat)
    requires Placed(d, edits) && PrefixFree(edits) && i < |edits|
    ensures PrefixFree(Without(edits, i)) && Placed(Replay(d, edits[i]), Without(edits, i))
    ensures multiset(Without(edits, i)) == multiset(edits) - multiset{edits[i]}
  {
    var rest := Without(edits, i);
    forall j | 0 <= j < |rest| ensures Apart(edits[i].path, rest[j].path) {
      var at := if j < i then j else j + 1;
      assert rest[j] == edits[at];
      assert Apart(edits[if at < i then at else i].path, edits[if at < i then i else at].path);
    }
    WithoutIs(edits, i);
    assert Placed(d, rest);
    PlacedAfter(d, edits[i], rest);
  }

  /** Edits at paths that lie apart give the same document in any order. */
  lemma {:induction false} AnyOrder(d: Doc, edits: seq<Edit>, order: seq<Edit>)
    requires Placed(d, edits) && PrefixFree(edits) && multiset(order) == multiset(edits)
    ensures Rooted(edits) && Rooted(order) && ReplayAll(d, order) == ReplayAll(d, edits)
    decreases |order|
  {
    hide HasParent, Apart, Replay;
    if order == [] {
      assert |multiset(edits)| == 0;
    } else {
      assert order[0] in multiset(edits);
      var i :| 0 <= i < |edits| && edits[i] == order[0];
      MoveToFront(d, edits, i);
      WithoutKeeps(d, edits, i);
      assert order == [order[0]] + order[1..];
      AnyOrder(Replay(d, order[0]), Without(edits, i), order[1..]);
      forall j | 0 <= j < |order| ensures order[j].path != [] {
        assert order[j] in multiset(edits);
      }
    }
  }

  lemma PlacedInAnyOrder(d: Doc, edits: seq<Edit>, order: seq<Edit>)
    requires Placed(d, edits) && multiset(order) == multiset(edits)
    ensures Placed(d, order)
  {
    forall j | 0 <= j < |order| ensures order[j].path != [] && HasParent(d, order[j].path) {
      assert order[j] in multiset(edits);
    }
  }

  lemma ApartFromRest(edits: seq<Edit>, i: nat, e: Edit)
    requires PrefixFree(edits) && i < |edits| && e in Without(edits, i)
    ensures Apart(edits[i].path, e.path)
  {
    var x :| 0 <= x < |Without(edits, i)| && Without(edits, i)[x] == e;
    var at := if x < i then x else x + 1;
    assert edits[at] == e;
    assert Apart(edits[if at < i then at else i].path, edits[if at < i then i else at].path);
  }

  lemma {:induction false} ApartInAnyOrder(edits: seq<Edit>, order: seq<Edit>)
    requires PrefixFree(edits) && multiset(order) == multiset(edits)
    ensures PrefixFree(order)
    decreases |order|
  {
    hide Apart;
    if order != [] {
      assert order[0] in multiset(edits);
      var i :| 0 <= i < |edits| && edits[i] == order[0];
      var rest := Without(edits, i);
      WithoutIs(edits, i);
      assert order == [order[0]] + order[1..];
      ApartInAnyOrder(rest, order[1..]);
      forall j, k | 0 <= j < k < |order| ensures Apart(order[j].path, order[k].path) {
        if j > 0 {
          assert Apart(order[1..][j - 1].path, order[1..][k - 1].path);
        } else {
          assert order[1..][k - 1] in multiset(rest);
          ApartFromRest(edits, i, order[k]);
        }
      }
    }
  }

  lemma {:induction false} DiffIsPlaced(m: Doc, n: Doc)
    ensures Placed(m, DiffDoc(m, n))
    decreases Obj(m), 2
  {
    DiffKeysPlaced(m, n, SortedKeys(m.Keys + n.Keys));
  }

  lemma {:induction false} DiffKeysPlaced(m: Doc, n: Doc, keys: seq<string>)
    requires forall k | k in keys :: k in m || k in n
    ensures Placed(m, DiffKeys(m, n, keys))
    decreases Obj(m), 1, |keys|
  {
    if keys != [] {
      var k := keys[0];
      DiffKeysPlaced(m, n, keys[1..]);
      if k in m && k in n && !Equal(m[k], n[k]) && m[k].Obj? && n[k].Obj? {
        var inner := DiffDoc(m[k].m, n[k].m);
        DiffIsPlaced(m[k].m, n[k].m);
        forall i | 0 <= i < |inner| ensures HasParent(m, [k] + inner[i].path) {
          assert ([k] + inner[i].path)[1..] == inner[i].path;
        }
      }
    }
  }

  // ----- dotted paths -----

  datatype Part = Field(key: string) | Index(i: nat)

  function NameLength(segment: string): (n: nat)
    ensures n <= |segment|
    ensures (forall i | 0 <= i < |segment| :: segment[i] != '[' && segment[i] != ']') ==> n == |segment|
  {
    if segment == "" || segment[0] == '[' || segment[0] == ']' then 0 else 1 + NameLength(segment[1..])
  }

  function DigitsLength(s: string): (n: nat)
    ensures n <= |s| && forall i | 0 <= i < n :: IsDigit(s[i])
  {
    if s == "" || !IsDigit(s[0]) then 0 else 1 + DigitsLength(s[1..])
  }

  function DecimalValue(s: string): nat
    requires forall i | 0 <= i < |s| :: IsDigit(s[i])
  {
    if s == "" then 0
    else
      assert IsDigit(s[|s| - 1]);
      DecimalValue(s[..|s| - 1]) * 10 + (s[|s| - 1] as int - '0' as int)
  }

  /** Trailing `[n]` groups of a segment. */
  function ParseIndices(s: string): Result<seq<Part>>
  {
    if s == "" then Ok([])
    else if s[0] != '[' then Err(Refused("invalid field path segment"))
    else
      var n := DigitsLength(s[1..]);
      if n == 0 || n + 1 >= |s| || s[n + 1] != ']' then Err(Refused("invalid field path segment"))
      else
        var rest := ParseIndices(s[n + 2..]);
        if rest.Err? then rest else Ok([Index(DecimalValue(s[1..][..n]))] + rest.value)
  }

  function ParseSegment(segment: string): Result<seq<Part>>
  {
    if segment == "" then Err(Refused("invalid field path"))
    else
      var n := NameLength(segment);
      var indices := ParseIndices(segment[n..]);
      if indices.Err? then indices
      else Ok((if n > 0 then [Field(segment[..n])] else []) + indices.value)
  }

  function ParseSegments(segments: seq<string>): Result<seq<Part>>
  {
    if segments == [] then Ok([])
    else
      var first, rest := ParseSegment(segments[0]), ParseSegments(segments[1..]);
      if first.Err? then first else if rest.Err? then rest else Ok(first.value + rest.value)
  }

  function SplitPath(path: string): Result<seq<Part>>
  {
    ParseSegments(Split(path))
  }

  /** Sets one part after the other: missing objects are made, scalars are not overwritten. */
  function SetAt(v: Value, parts: seq<Part>, value: Value): Result<Value>
    requires parts != []
    decreases |parts|
  {
    match parts[0]
    case Index(i) =>
      if !v.Arr? then Err(Refused("expected a list"))
      else if i >= |v.xs| then Err(Refused("list index out of range"))
      else if |parts| == 1 then Ok(Arr(v.xs[i := value]))
      else
        var inner := SetAt(v.xs[i], parts[1..], value);
        if inner.Err? then inner else Ok(Arr(v.xs[i := inner.value]))
    case Field(key) =>
      if !v.Obj? then Err(Refused("cannot set field on a non-object"))
      else if |parts| == 1 then Ok(Obj(v.m[key := value]))
      else if key in v.m && !v.m[key].Obj? && !v.m[key].Arr? then Err(Refused("refusing to overwrite a scalar"))
      else
        var inner := SetAt(if key in v.m then v.m[key] else Obj(map[]), parts[1..], value);
        if inner.Err? then inner else Ok(Obj(v.m[key := inner.value]))
  }

  /** What is at the end of some parts, if anything is. */
  function ValueAt(v: Value, parts: seq<Part>): Option<Value>
    decreases |parts|
  {
    if parts == [] then Some(v)
    else
      match parts[0]
      case Index(i) => if v.Arr? && i < |v.xs| then ValueAt(v.xs[i], parts[1..]) else None
      case Field(key) => if v.Obj? && key in v.m then ValueAt(v.m[key], parts[1..]) else None
  }

  /** The way exists, but for objects still to be made, and meets no scalar. */
  ghost predicate Settable(v: Value, parts: seq<Part>)
    requires parts != []
    decreases |parts|
  {
    match parts[0]
    case Index(i) => v.Arr? && i < |v.xs| && (|parts| == 1 || Settable(v.xs[i], parts[1..]))
    case Field(key) =>
      v.Obj? && (|parts| == 1 || Settable(if key in v.m then v.m[key] else Obj(map[]), parts[1..]))
  }

  /** Setting succeeds exactly where the way can be gone, and then the value is there. */
  lemma {:induction false} SetAtReads(v: Value, parts: seq<Part>, value: Value)
    requires parts != []
    ensures SetAt(v, parts, value).Ok? <==> Settable(v, parts)
    ensures SetAt(v, parts, value).Ok? ==> ValueAt(SetAt(v, parts, value).value, parts) == Some(value)
    decreases |parts|
  {
    if |parts| == 1 {
      assert parts[1..] == [];
    } else {
      match parts[0]
      case Index(i) =>
        if v.Arr? && i < |v.xs| {
          SetAtReads(v.xs[i], parts[1..], value);
        }
      case Field(key) =>
        if v.Obj? {
          SetAtReads(if key in v.m then v.m[key] else Obj(map[]), parts[1..], value);
        }
    }
  }

  /** Everything that lies apart stays: every other member and every other position, at any depth. */
  lemma {:induction false} SetAtElsewhere(v: Value, parts: seq<Part>, value: Value, other: seq<Part>)
    requires parts != [] && SetAt(v, parts, value).Ok? && !(parts <= other) && !(other <= parts)
    ensures ValueAt(SetAt(v, parts, value).value, other) == ValueAt(v, other)
    decreases |parts|
  {
    if other[0] == parts[0] {
      assert parts == [parts[0]] + parts[1..] && other == [other[0]] + other[1..];
      if |parts| > 1 {
        match parts[0]
        case Index(i) => SetAtElsewhere(v.xs[i], parts[1..], value, other[1..]);
        case Field(key) =>
          SetAtElsewhere(if key in v.m then v.m[key] else Obj(map[]), parts[1..], value, other[1..]);
      }
    }
  }

  /** In particular, setting a position of a list keeps its length and every other item. */
  lemma {:induction false} SetPosition(v: Value, key: string, i: nat, value: Value)
    ensures var r := SetAt(v, [Field(key), Index(i)], value);
            && (r.Ok? <==> v.Obj? && key in v.m && v.m[key].Arr? && i < |v.m[key].xs|)
            && (r.Ok? ==> r.value == Obj(v.m[key := Arr(v.m[key].xs[i := value])]))
  {
    assert [Field(key), Index(i)][1..] == [Index(i)];
  }

  function SetDotted(d: Doc, path: string, value: Value): Result<Value>
  {
    var parts := SplitPath(path);
    if parts.Err? then Err(parts.error)
    else if parts.value == [] then Err(Refused("empty field path"))
    else SetAt(Obj(d), parts.value, value)
  }

  function Fields(p: Path): seq<Part>
  {
    seq(|p|, i requires 0 <= i < |p| => Field(p[i]))
  }

  lemma {:induction false} PlainSegments(p: Path)
    requires PlainPath(p)
    ensures ParseSegments(p) == Ok(Fields(p))
  {
    if p != [] {
      PlainSegments(p[1..]);
      assert Plain(p[0]);
      assert forall i | 0 <= i < |p[0]| :: p[0][i] !in {'.', '[', ']'};
      assert NameLength(p[0]) == |p[0]|;
      assert p[0][|p[0]|..] == "" && p[0][..|p[0]|] == p[0];
      assert [Field(p[0])] + [] == [Field(p[0])];
      assert ParseSegment(p[0]) == Ok([Field(p[0])]);
      assert Fields(p) == [Field(p[0])] + Fields(p[1..]);
    }
  }

  lemma {:induction false} SetAtIsSet(d: Doc, p: Path, v: Value)
    requires p != [] && HasParent(d, p)
    ensures SetAt(Obj(d), Fields(p), v) == Ok(Obj(Set(d, p, v)))
    decreases p
  {
    if |p| > 1 {
      SetAtIsSet(d[p[0]].m, p[1..], v);
      assert Fields(p)[1..] == Fields(p[1..]);
    }
  }

  /** Under existing objects, setting a dotted path of plain keys is a plain write. */
  lemma {:induction false} SetDottedIsSet(d: Doc, p: Path, v: Value)
    requires p != [] && PlainPath(p) && HasParent(d, p)
    ensures SetDotted(d, Join(p), v) == Ok(Obj(Set(d, p, v)))
  {
    SplitJoin(p);
    PlainSegments(p);
    SetAtIsSet(d, p, v);
  }

  /** For plain keys, the dotted set succeeds exactly where the way can be gone. */
  lemma DottedSetIff(d: Doc, p: Path, v: Value)
    requires p != [] && PlainPath(p)
    ensures SetDotted(d, Join(p), v).Ok? <==> Settable(Obj(d), Fields(p))
  {
    hide SetAt, Settable, Join;
    SplitJoin(p);
    PlainSegments(p);
    SetAtReads(Obj(d), Fields(p), v);
  }

  /** Concrete input: a number after a dot is a key and no position, so a list refuses it. */
  lemma NumberIsNoPosition(d: Doc, key: string, v: Value)
    requires Plain(key) && key in d && d[key].Arr?
    ensures SetDotted(d, Join([key, "0"]), v).Err?
  {
    hide Join, SetDotted;
    DottedSetIff(d, [key, "0"], v);
    assert Fields([key, "0"]) == [Field(key), Field("0")] && Fields([key, "0"])[1..] == [Field("0")];
  }

  lemma {:induction false} DigitsRead(n: nat)
    ensures forall i | 0 <= i < |Digits(n)| :: IsDigit(Digits(n)[i])
    ensures DecimalValue(Digits(n)) == n
  {
    if n < 10 {
      assert Digits(n) == [Digit(n)] && Digits(n)[..0] == "";
      DigitReads(n);
    } else {
      DigitsRead(n / 10);
      DigitReads(n % 10);
      var s := Digits(n);
      assert s == Digits(n / 10) + [Digit(n % 10)] && s[..|s| - 1] == Digits(n / 10);
    }
  }

  lemma DigitReads(n: nat)
    requires n < 10
    ensures IsDigit(Digit(n)) && Digit(n) as int - '0' as int == n
  {
  }

  lemma {:induction false} DigitsEnd(digits: string, rest: string)
    requires forall i | 0 <= i < |digits| :: IsDigit(digits[i])
    requires rest != "" && !IsDigit(rest[0])
    ensures DigitsLength(digits + rest) == |digits|
  {
    if digits == "" {
      assert digits + rest == rest;
    } else {
      DigitsEnd(digits[1..], rest);
      assert (digits + rest)[1..] == digits[1..] + rest;
    }
  }

  lemma {:induction false} NameEnds(name: string, rest: string)
    requires (forall i | 0 <= i < |name| :: name[i] != '[' && name[i] != ']') && rest != "" && rest[0] == '['
    ensures NameLength(name + rest) == |name|
  {
    if name == "" {
      assert name + rest == rest;
    } else {
      NameEnds(name[1..], rest);
      assert (name + rest)[1..] == name[1..] + rest;
    }
  }

  lemma {:induction false} TailIsRead(i: nat)
    ensures ParseIndices("[" + Digits(i) + "]") == Ok([Index(i)])
  {
    var digits, tail := Digits(i), "[" + Digits(i) + "]";
    DigitsRead(i);
    DigitsEnd(digits, "]");
    assert tail[1..] == digits + "]" && tail[1..][..|digits|] == digits && tail[|digits| + 2..] == "";
    assert ParseIndices("") == Ok([]) && [Index(i)] + [] == [Index(i)];
  }

  lemma {:induction false} SegmentIsRead(key: string, tail: string, parts: seq<Part>)
    requires Plain(key) && tail != "" && tail[0] == '[' && ParseIndices(tail) == Ok(parts)
    ensures ParseSegment(key + tail) == Ok([Field(key)] + parts)
  {
    hide ParseIndices;
    NameEnds(key, tail);
    assert (key + tail)[|key|..] == tail && (key + tail)[..|key|] == key;
  }

  /** A printed list position is read back. */
  lemma PositionIsRead(key: string, i: nat)
    requires Plain(key)
    ensures SplitPath(key + "[" + IntText(i) + "]") == Ok([Field(key), Index(i)])
  {
    hide ParseIndices, ParseSegment, Digits;
    var digits, tail, whole := Digits(i), "[" + Digits(i) + "]", key + "[" + IntText(i) + "]";
    assert whole == key + tail;
    TailIsRead(i);
    SegmentIsRead(key, tail, [Index(i)]);
    DigitsRead(i);
    forall x | 0 <= x < |whole| ensures whole[x] != '.' {
      assert |key| < x < |whole| - 1 ==> whole[x] == digits[x - |key| - 1];
    }
    SplitJoined([whole], '.');
    assert JoinWith([whole], '.') == whole && Split(whole) == [whole] && [whole][1..] == [];
    assert ParseSegments([]) == Ok([]) && ParseSegment(whole) == Ok([Field(key)] + [Index(i)]);
    assert [Field(key)] + [Index(i)] + [] == [Field(key), Index(i)];
  }

  /** Setting `key[i]` changes position i of that list, and fails where there is none. */
  lemma SetDottedPosition(d: Doc, key: string, i: nat, value: Value)
    requires Plain(key)
    ensures var r := SetDotted(d, key + "[" + IntText(i) + "]", value);
            && (r.Ok? <==> key in d && d[key].Arr? && i < |d[key].xs|)
            && (r.Ok? ==> r.value == Obj(d[key := Arr(d[key].xs[i := value])]))
  {
    hide SplitPath, SetAt;
    PositionIsRead(key, i);
    SetPosition(Obj(d), key, i, value);
  }

  lemma {:induction false} DropDottedIsDrop(d: Doc, p: Path)
    requires p != [] && PlainPath(p)
    ensures DropDotted(d, Join(p)) == Drop(d, p)
  {
    SplitJoin(p);
    assert forall i | 0 <= i < |p| :: Plain(p[i]);
    NonEmptyPlain(p);
  }

  // ----- the printed diff -----

  datatype DottedEdit = DottedEdit(path: string, op: EditOp, before: Value, after: Value)

  function ChildPath(path: string, key: string): string
  {
    if path != "" then path + "." + key else key
  }

  function DiffMember(m: Doc, n: Doc, path: string, k: string): seq<DottedEdit>
    requires k in m || k in n
    decreases Obj(m), 0
  {
    if k !in m then [DottedEdit(ChildPath(path, k), Added, Null, n[k])]
    else if k !in n then [DottedEdit(ChildPath(path, k), Removed, m[k], Null)]
    else DiffValues(m[k], n[k], ChildPath(path, k))
  }

  predicate Covered(m: Doc, n: Doc, keys: seq<string>)
  {
    forall i | 0 <= i < |keys| :: keys[i] in m || keys[i] in n
  }

  function DiffMembers(m: Doc, n: Doc, path: string, keys: seq<string>): seq<DottedEdit>
    requires Covered(m, n, keys)
    decreases Obj(m), 1, |keys|
  {
    if keys == [] then [] else DiffMember(m, n, path, keys[0]) + DiffMembers(m, n, path, keys[1..])
  }

  function DiffValues(before: Value, after: Value, path: string): seq<DottedEdit>
    decreases before, 2
  {
    if Equal(before, after) then []
    else if before.Obj? && after.Obj? then
      KeysCovered(before.m, after.m);
      DiffMembers(before.m, after.m, path, SortedKeys(before.m.Keys + after.m.Keys))
    else [DottedEdit(if path == "" then "$" else path, Changed, before, after)]
  }

  method DiffValuesLoop(before: Value, after: Value, path: string) returns (changes: seq<DottedEdit>)
    ensures changes == DiffValues(before, after, path)
    decreases before, 2
  {
    changes := [];
    if Equal(before, after) {
    } else if before.Obj? && after.Obj? {
      changes := DiffMembersLoop(before.m, after.m, path);
    } else {
      changes := [DottedEdit(if path == "" then "$" else path, Changed, before, after)];
    }
  }

  method DiffMembersLoop(m: Doc, n: Doc, path: string) returns (changes: seq<DottedEdit>)
    ensures Covered(m, n, SortedKeys(m.Keys + n.Keys))
    ensures changes == DiffMembers(m, n, path, SortedKeys(m.Keys + n.Keys))
    decreases Obj(m), 1
  {
    hide *;
    changes := [];
    var keys := SortedKeys(m.Keys + n.Keys);
    KeysCovered(m, n);
    NothingLeft(m, n, path, keys);
    for i := 0 to |keys|
      invariant Left(m, n, path, keys, i, changes)
    {
      OneLess(m, n, path, keys, i, changes);
      var more := DiffMemberBranch(m, n, path, keys[i]);
      changes := changes + more;
    }
  }

  /** The members from `i` on are still to be listed. */
  ghost predicate Left(m: Doc, n: Doc, path: string, keys: seq<string>, i: nat, changes: seq<DottedEdit>)
  {
    i <= |keys| && Covered(m, n, keys) && Covered(m, n, keys[i..]) &&
    DiffMembers(m, n, path, keys) == changes + DiffMembers(m, n, path, keys[i..])
  }

  lemma {:induction false} NothingLeft(m: Doc, n: Doc, path: string, keys: seq<string>)
    requires Covered(m, n, keys)
    ensures Left(m, n, path, keys, 0, [])
    ensures forall changes :: Left(m, n, path, keys, |keys|, changes) ==> changes == DiffMembers(m, n, path, keys)
  {
    hide DiffMember, Covered;
    NoMembers(m, n, path);
    assert keys[0..] == keys && keys[|keys|..] == [];
    forall changes | Left(m, n, path, keys, |keys|, changes) ensures changes == DiffMembers(m, n, path, keys) {
      assert changes + [] == changes;
    }
  }

  lemma {:induction false} OneLess(m: Doc, n: Doc, path: string, keys: seq<string>, i: nat, changes: seq<DottedEdit>)
    requires i < |keys| && Left(m, n, path, keys, i, changes)
    ensures keys[i] in m || keys[i] in n
    ensures Left(m, n, path, keys, i + 1, changes + DiffMember(m, n, path, keys[i]))
  {
    hide DiffMember, DiffMembers, Covered;
    assert keys[i..][1..] == keys[i + 1..];
    DiffMembersStep(m, n, path, keys[i..]);
    Assoc(changes, DiffMember(m, n, path, keys[i]), DiffMembers(m, n, path, keys[i + 1..]));
  }

  lemma KeysCovered(m: Doc, n: Doc)
    ensures Covered(m, n, SortedKeys(m.Keys + n.Keys))
    ensures forall k | k in SortedKeys(m.Keys + n.Keys) :: k in m || k in n
  {
    hide SortedKeys;
    var keys := SortedKeys(m.Keys + n.Keys);
    forall i | 0 <= i < |keys| ensures keys[i] in m || keys[i] in n {
      assert keys[i] in keys;
    }
  }

  method DiffMemberBranch(m: Doc, n: Doc, path: string, k: string) returns (changes: seq<DottedEdit>)
    requires k in m || k in n
    ensures changes == DiffMember(m, n, path, k)
    decreases Obj(m), 0
  {
    var childPath := ChildPath(path, k);
    if k !in m {
      changes := [DottedEdit(childPath, Added, Null, n[k])];
    } else if k !in n {
      changes := [DottedEdit(childPath, Removed, m[k], Null)];
    } else {
      changes := DiffValuesLoop(m[k], n[k], childPath);
    }
  }

  lemma {:induction false} NoMembers(m: Doc, n: Doc, path: string)
    ensures Covered(m, n, []) && DiffMembers(m, n, path, []) == []
  {
  }

  lemma {:induction false} DiffMembersStep(m: Doc, n: Doc, path: string, keys: seq<string>)
    requires keys != [] && Covered(m, n, keys)
    ensures (keys[0] in m || keys[0] in n) && Covered(m, n, keys[1..])
    ensures DiffMembers(m, n, path, keys) == DiffMember(m, n, path, keys[0]) + DiffMembers(m, n, path, keys[1..])
  {
    hide DiffMember;
  }

  /** Every key of every object, at any depth, is non-empty and free of `.`, `[` and `]`. */
  ghost predicate PlainKeys(v: Value)
  {
    v.Obj? ==> forall k | k in v.m :: Plain(k) && PlainKeys(v.m[k])
  }

  function Dotted(prefix: Path, edits: seq<Edit>): (r: seq<DottedEdit>)
    ensures |r| == |edits|
    ensures forall i | 0 <= i < |edits| ::
              r[i] == DottedEdit(Join(prefix + edits[i].path), edits[i].op, edits[i].before, edits[i].after)
  {
    seq(|edits|, i requires 0 <= i < |edits| =>
      DottedEdit(Join(prefix + edits[i].path), edits[i].op, edits[i].before, edits[i].after))
  }

  lemma {:induction false} JoinChild(prefix: Path, k: string)
    requires PlainPath(prefix)
    ensures Join(prefix + [k]) == ChildPath(Join(prefix), k)
    ensures prefix != [] ==> Join(prefix) != ""
  {
    if |prefix| == 0 {
      assert prefix + [k] == [k];
    } else {
      assert Plain(prefix[0]);
      JoinChild(prefix[1..], k);
      assert (prefix + [k])[1..] == prefix[1..] + [k];
    }
  }

  lemma {:induction false} DiffValuesIsDotted(m: Doc, n: Doc, prefix: Path)
    requires PlainKeys(Obj(m)) && PlainKeys(Obj(n)) && PlainPath(prefix)
    ensures DiffValues(Obj(m), Obj(n), Join(prefix)) == Dotted(prefix, DiffDoc(m, n))
    decreases Obj(m), 2
  {
    hide Equal, PlainKeys, PlainPath, Join, DiffMembers, DiffKeys, SortedKeys, Covered, Dotted;
    KeysCovered(m, n);
    if Equal(Obj(m), Obj(n)) {
      DiffEmptyIff(m, n);
    } else {
      DiffMembersIsDotted(m, n, prefix, SortedKeys(m.Keys + n.Keys));
    }
  }

  lemma {:induction false} DiffMemberIsDotted(m: Doc, n: Doc, prefix: Path, k: string)
    requires PlainKeys(Obj(m)) && PlainKeys(Obj(n)) && PlainPath(prefix)
    requires k in m && k in n
    ensures DiffValues(m[k], n[k], Join(prefix + [k])) == Dotted(prefix, DiffKey(m, n, k))
    decreases Obj(m), 0
  {
    assert Plain(k) && PlainPath(prefix + [k]);
    if m[k].Obj? && n[k].Obj? && !Equal(m[k], n[k]) {
      DiffValuesIsDotted(m[k].m, n[k].m, prefix + [k]);
      DottedUnder(prefix, k, DiffDoc(m[k].m, n[k].m));
    } else {
      JoinChild(prefix + [k], k);
    }
  }

  lemma DottedConcat(prefix: Path, xs: seq<Edit>, ys: seq<Edit>)
    ensures Dotted(prefix, xs + ys) == Dotted(prefix, xs) + Dotted(prefix, ys)
  {
  }

  lemma {:induction false} DiffMembersIsDotted(m: Doc, n: Doc, prefix: Path, keys: seq<string>)
    requires PlainKeys(Obj(m)) && PlainKeys(Obj(n)) && PlainPath(prefix)
    requires Covered(m, n, keys) && forall k | k in keys :: k in m || k in n
    ensures DiffMembers(m, n, Join(prefix), keys) == Dotted(prefix, DiffKeys(m, n, keys))
    decreases Obj(m), 1, |keys|
  {
    hide Equal, PlainKeys, Join;
    if keys != [] {
      var k, rest := keys[0], keys[1..];
      JoinChild(prefix, k);
      DiffMembersIsDotted(m, n, prefix, rest);
      DottedConcat(prefix, DiffKey(m, n, k), DiffKeys(m, n, rest));
      if k in m && k in n {
        DiffMemberIsDotted(m, n, prefix, k);
      }
    }
  }

  lemma DottedUnder(prefix: Path, k: string, edits: seq<Edit>)
    ensures Dotted(prefix, Under(k, edits)) == Dotted(prefix + [k], edits)
  {
    forall i | 0 <= i < |edits| ensures Dotted(prefix, Under(k, edits))[i] == Dotted(prefix + [k], edits)[i] {
      assert prefix + ([k] + edits[i].path) == (prefix + [k]) + edits[i].path;
    }
  }

  // ----- replaying the printed diff -----

  /** Adds and changes with the dotted set, removals with the dotted drop. */
  function ReplayDotted(d: Doc, edits: seq<DottedEdit>): Result<Doc>
    decreases edits
  {
    if edits == [] then Ok(d)
    else if edits[0].op == Removed then ReplayDotted(DropDotted(d, edits[0].path), edits[1..])
    else
      var next := SetDotted(d, edits[0].path, edits[0].after);
      if next.Err? then Err(next.error)
      else if !next.value.Obj? then Err(Refused("not an object"))
      else ReplayDotted(next.value.m, edits[1..])
  }

  ghost predicate PlainEdits(edits: seq<Edit>)
  {
    forall i | 0 <= i < |edits| :: PlainPath(edits[i].path)
  }

  lemma PrefixFreeRest(edits: seq<Edit>)
    requires PrefixFree(edits) && edits != []
    ensures PrefixFree(edits[1..]) && forall j | 0 <= j < |edits[1..]| :: Apart(edits[0].path, edits[1..][j].path)
  {
    hide Apart;
    var rest := edits[1..];
    forall j | 0 <= j < |rest| ensures Apart(edits[0].path, rest[j].path) {
      assert Apart(edits[0].path, edits[j + 1].path);
    }
    forall j, k | 0 <= j < k < |rest| ensures Apart(rest[j].path, rest[k].path) {
      assert Apart(edits[j + 1].path, edits[k + 1].path);
    }
  }

  lemma {:induction false} DottedReplays(d: Doc, edits: seq<Edit>)
    requires Placed(d, edits) && PrefixFree(edits) && PlainEdits(edits)
    ensures Rooted(edits) && ReplayDotted(d, Dotted([], edits)) == Ok(ReplayAll(d, edits))
    decreases edits
  {
    if edits != [] {
      hide SetDotted, DropDotted, Apart, HasParent, PrefixFree;
      var e, rest := edits[0], edits[1..];
      assert [] + e.path == e.path;
      if e.op == Removed {
        DropDottedIsDrop(d, e.path);
      } else {
        SetDottedIsSet(d, e.path, e.after);
      }
      PrefixFreeRest(edits);
      PlacedAfter(d, e, rest);
      DottedReplays(Replay(d, e), rest);
      assert Dotted([], edits)[1..] == Dotted([], rest);
    }
  }

  lemma {:induction false} DiffIsPlain(m: Doc, n: Doc)
    requires PlainKeys(Obj(m)) && PlainKeys(Obj(n))
    ensures PlainEdits(DiffDoc(m, n))
    decreases Obj(m), 2
  {
    DiffKeysPlain(m, n, SortedKeys(m.Keys + n.Keys));
  }

  lemma {:induction false} DiffKeysPlain(m: Doc, n: Doc, keys: seq<string>)
    requires PlainKeys(Obj(m)) && PlainKeys(Obj(n))
    requires forall k | k in keys :: k in m || k in n
    ensures PlainEdits(DiffKeys(m, n, keys))
    decreases Obj(m), 1, |keys|
  {
    if keys != [] {
      var k := keys[0];
      assert Plain(k);
      DiffKeysPlain(m, n, keys[1..]);
      if k in m && k in n && !Equal(m[k], n[k]) && m[k].Obj? && n[k].Obj? {
        DiffIsPlain(m[k].m, n[k].m);
      }
    }
  }

  lemma WithoutMultiset<T>(xs: seq<T>, i: nat)
    requires i < |xs|
    ensures multiset(Without(xs, i)) == multiset(xs) - multiset{xs[i]}
  {
    assert xs == xs[..i] + [xs[i]] + xs[i + 1..];
  }

  lemma DottedWithout(edits: seq<Edit>, i: nat)
    requires i < |edits|
    ensures Dotted([], Without(edits, i)) == Without(Dotted([], edits), i)
  {
  }

  lemma DottedCons(edits: seq<Edit>, i: nat, rest: seq<Edit>)
    requires i < |edits|
    ensures Dotted([], [edits[i]] + rest) == [Dotted([], edits)[i]] + Dotted([], rest)
  {
  }

  /** The first of an order of printed edits, taken out. */
  lemma TakeOut(edits: seq<Edit>, order: seq<DottedEdit>) returns (i: nat)
    requires order != [] && multiset(order) == multiset(Dotted([], edits))
    ensures i < |edits| && Dotted([], edits)[i] == order[0]
    ensures multiset(order[1..]) == multiset(Dotted([], Without(edits, i)))
  {
    hide Join;
    var printed := Dotted([], edits);
    assert order[0] in multiset(printed);
    i :| 0 <= i < |printed| && printed[i] == order[0];
    WithoutMultiset(printed, i);
    DottedWithout(edits, i);
    assert order == [order[0]] + order[1..];
  }

  /** An order of the printed edits is an order of the edits they print. */
  lemma {:induction false} LiftOrder(edits: seq<Edit>, order: seq<DottedEdit>) returns (lifted: seq<Edit>)
    requires multiset(order) == multiset(Dotted([], edits))
    ensures Dotted([], lifted) == order && multiset(lifted) == multiset(edits)
    decreases |order|
  {
    hide Without, Dotted, Join;
    if order == [] {
      assert |multiset(Dotted([], edits))| == 0;
      lifted := [];
    } else {
      var i := TakeOut(edits, order);
      var rest := LiftOrder(Without(edits, i), order[1..]);
      DottedCons(edits, i, rest);
      WithoutMultiset(edits, i);
      lifted := [edits[i]] + rest;
    }
  }

  lemma PlainInAnyOrder(edits: seq<Edit>, order: seq<Edit>)
    requires PlainEdits(edits) && multiset(order) == multiset(edits)
    ensures PlainEdits(order)
  {
    forall i | 0 <= i < |order| ensures PlainPath(order[i].path) {
      assert order[i] in multiset(edits);
    }
  }

  /** For documents with plain keys: the printed paths are pairwise prefix-free, the diff is
      empty exactly when the documents are equal, and its edits, replayed in any order with the
      dotted set and the dotted drop, turn the first document into the second. */
  lemma {:induction false} DiffReplays(before: Doc, after: Doc, order: seq<DottedEdit>)
    requires PlainKeys(Obj(before)) && PlainKeys(Obj(after))
    requires multiset(order) == multiset(DiffValues(Obj(before), Obj(after), ""))
    ensures PrefixFree(DiffDoc(before, after))
    ensures DiffValues(Obj(before), Obj(after), "") == Dotted([], DiffDoc(before, after))
    ensures DiffValues(Obj(before), Obj(after), "") == [] <==> Equal(Obj(before), Obj(after))
    ensures ReplayDotted(before, order).Ok? && Agree(Obj(ReplayDotted(before, order).value), Obj(after))
  {
    hide Agree, Equal, DiffValues, DiffDoc, Placed, PrefixFree, PlainEdits, Dotted, ReplayDotted;
    var edits := DiffDoc(before, after);
    DiffValuesIsDotted(before, after, []);
    assert Join([]) == "";
    DiffEmptyIff(before, after);
    DiffIsPrefixFree(before, after);
    DiffIsPlaced(before, after);
    DiffIsPlain(before, after);
    DiffReplaysInOrder(before, after);
    var lifted := LiftOrder(edits, order);
    AnyOrder(before, edits, lifted);
    PlacedInAnyOrder(before, edits, lifted);
    ApartInAnyOrder(edits, lifted);
    PlainInAnyOrder(edits, lifted);
    DottedReplays(before, lifted);
  }

  // ----- the old values -----

  function UndoPrinted(edits: seq<DottedEdit>): (r: seq<DottedEdit>)
    ensures |r| == |edits|
    ensures forall i | 0 <= i < |edits| ::
              r[i] == DottedEdit(edits[i].path, Undo(Edit([], edits[i].op, Null, Null)).op, edits[i].after, edits[i].before)
  {
    seq(|edits|, i requires 0 <= i < |edits| =>
      DottedEdit(edits[i].path, Undo(Edit([], edits[i].op, Null, Null)).op, edits[i].after, edits[i].before))
  }

  /** For all values, whatever their keys: the printed diff the other way round takes every edit back,
      removing what was added and putting the old value where the new one was. */
  lemma {:induction false} PrintedBackwards(v: Value, w: Value, path: string)
    ensures DiffValues(w, v, path) == UndoPrinted(DiffValues(v, w, path))
    decreases v, 2
  {
    hide Equal, SortedKeys;
    EqualSymmetric(v, w);
    if !Equal(v, w) && v.Obj? && w.Obj? {
      assert v.m.Keys + w.m.Keys == w.m.Keys + v.m.Keys;
      KeysCovered(v.m, w.m);
      KeysCovered(w.m, v.m);
      MembersBackwards(v.m, w.m, path, SortedKeys(v.m.Keys + w.m.Keys));
    }
  }

  lemma {:induction false} MembersBackwards(m: Doc, n: Doc, path: string, keys: seq<string>)
    requires Covered(m, n, keys) && Covered(n, m, keys)
    ensures DiffMembers(n, m, path, keys) == UndoPrinted(DiffMembers(m, n, path, keys))
    decreases Obj(m), 1, |keys|
  {
    hide Equal, DiffValues;
    if keys != [] {
      var k := keys[0];
      MembersBackwards(m, n, path, keys[1..]);
      if k in m && k in n {
        PrintedBackwards(m[k], n[k], ChildPath(path, k));
      }
      assert DiffMember(n, m, path, k) == UndoPrinted(DiffMember(m, n, path, k));
    }
  }

  /** For documents with plain keys: every printed edit shows what the two documents have at its path. */
  lemma {:induction false} PrintedShows(before: Doc, after: Doc, e: DottedEdit)
    requires PlainKeys(Obj(before)) && PlainKeys(Obj(after)) && e in DiffValues(Obj(before), Obj(after), "")
    ensures exists path: Path :: PlainPath(path) && e.path == Join(path) &&
              Shows(before, after, Edit(path, e.op, e.before, e.after))
  {
    hide DiffDoc, DiffValues, Shows, Join;
    var edits := DiffDoc(before, after);
    assert Join([]) == "" by {
      NoSegments();
    }
    DiffValuesIsDotted(before, after, []);
    DiffShows(before, after);
    DiffIsPlain(before, after);
    var i :| 0 <= i < |Dotted([], edits)| && Dotted([], edits)[i] == e;
    assert edits[i] in edits && [] + edits[i].path == edits[i].path;
    assert Shows(before, after, Edit(edits[i].path, e.op, e.before, e.after));
  }

  lemma NoSegments()
    ensures Join([]) == ""
  {
  }

  /** The printed diff can be read backwards: its edits taken back in any order, added paths dropped and
      the old values set, turn the second document into the first. */
  lemma {:induction false} DiffReplaysBackwards(before: Doc, after: Doc, order: seq<DottedEdit>)
    requires PlainKeys(Obj(before)) && PlainKeys(Obj(after))
    requires multiset(order) == multiset(UndoPrinted(DiffValues(Obj(before), Obj(after), "")))
    ensures ReplayDotted(after, order).Ok? && Agree(Obj(ReplayDotted(after, order).value), Obj(before))
  {
    hide DiffValues, PlainKeys, ReplayDotted, Agree;
    PrintedBackwards(Obj(before), Obj(after), "");
    DiffReplays(after, before, order);
  }

  // ----- an empty diff, and the hash -----

  lemma {:induction false} MembersEmptyIff(m: Doc, n: Doc, path: string, keys: seq<string>)
    requires Covered(m, n, keys)
    ensures DiffMembers(m, n, path, keys) == [] <==>
              forall k | k in keys :: k in m && k in n && Equal(m[k], n[k])
    decreases Obj(m), 1, |keys|
  {
    if keys != [] {
      var k := keys[0];
      MembersEmptyIff(m, n, path, keys[1..]);
      assert |DiffMembers(m, n, path, keys)| == |DiffMember(m, n, path, k)| + |DiffMembers(m, n, path, keys[1..])|;
      if k in m && k in n {
        PrintedEmptyIff(m[k], n[k], ChildPath(path, k));
      }
      assert forall x :: x in keys <==> x == k || x in keys[1..];
    }
  }

  /** For all values, whatever their keys, the printed diff is empty exactly when they are equal. */
  lemma {:induction false} PrintedEmptyIff(v: Value, w: Value, path: string)
    ensures DiffValues(v, w, path) == [] <==> Equal(v, w)
    decreases v, 2
  {
    hide SortedKeys;
    if !Equal(v, w) && v.Obj? && w.Obj? {
      var keys := SortedKeys(v.m.Keys + w.m.Keys);
      KeysCovered(v.m, w.m);
      MembersEmptyIff(v.m, w.m, path, keys);
      EqualMeans(v.m, w.m);
      assert forall k :: k in v.m || k in w.m ==> k in keys;
    }
  }

  /** When two versions show no difference, they have the same oid exactly when nowhere in what is
      hashed a truth value faces a number. */
  lemma EmptyDiffKeepsHashIff(c: Coll, d: Doc, e: Doc)
    requires DiffValues(Obj(Strip(c, d)), Obj(Strip(c, e)), "") == []
    ensures HashDoc(c, d) == HashDoc(c, e) <==> SameTruth(Obj(Strip(c, d)), Obj(Strip(c, e)))
  {
    PrintedEmptyIff(Obj(Strip(c, d)), Obj(Strip(c, e)), "");
    EqualNormal(c.lib, Obj(Strip(c, d)), Obj(Strip(c, e)));
    OidIdentifiesNormalForm(c, d, e);
  }

  lemma {:induction false} OneMemberNormal(lib: Lib, k: string, v: Value, t: Norm)
    requires v != Null && Normalize(lib, v) == Some(t)
    ensures Normalize(lib, Obj(map[k := v])) == Some(NObj(map[k := t]))
  {
    var m := map[k := v];
    assert forall x | x in m :: m[x] == v && Normalize(lib, m[x]) == Some(t);
    var normal := Normalize(lib, Obj(m));
    assert normal.Some? && normal.value.m.Keys == {k};
    assert normal.value.m == map[k := t];
  }

  /** An empty diff is not an equal hash: a truth value and a number compare equal, and hash
      differently. */
  lemma EmptyDiffMayHideANewHash(c: Coll)
    requires !c.Ignored("on") && c.ignorePaths == c.secretFields == []
    ensures var before: Doc, after: Doc := map["on" := Int(1)], map["on" := Bool(true)];
            DiffValues(Obj(before), Obj(after), "") == [] && HashDoc(c, before) != HashDoc(c, after)
  {
    var before: Doc, after: Doc := map["on" := Int(1)], map["on" := Bool(true)];
    assert Equal(Obj(before), Obj(after)) by {
      assert Equal(before["on"], after["on"]);
    }
    assert RemoveIgnored(c, before) == before && RemoveIgnored(c, after) == after;
    assert Strip(c, before) == before && Strip(c, after) == after;
    OneMemberNormal(c.lib, "on", Int(1), NInt(1));
    OneMemberNormal(c.lib, "on", Bool(true), NBool(true));
    assert map["on" := NInt(1)]["on"] != map["on" := NBool(true)]["on"];
    OidIdentifiesNormalForm(c, before, after);
  }
}
