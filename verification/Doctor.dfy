/** The read-only preflight: which fields to keep out of history so that no secret is left. */
module Doctor {
  import opened Texts
  import opened Canonical
  import opened Documents
  import opened Hashing
  import opened Store
  import opened Plans
  import opened Replay

  /** The deny-list: field patterns, and a predicate for any value pattern found in a text. */
  datatype Secrets = Secrets(fieldPatterns: seq<string>, valueHit: string -> bool)

  datatype Leaf = Leaf(path: seq<Part>, value: Value)

  /** Every scalar of a value, with the way to it. */
  function Leaves(v: Value): set<Leaf>
  {
    match v
    case Obj(m) => set k, leaf | k in m && leaf in Leaves(m[k]) :: Leaf([Field(k)] + leaf.path, leaf.value)
    case Arr(xs) => set i: nat, leaf | i < |xs| && leaf in Leaves(xs[i]) :: Leaf([Index(i)] + leaf.path, leaf.value)
    case _ => {Leaf([], v)}
  }

  /** The printed path. */
  function PathText(path: seq<Part>): string
  {
    if path == [] then ""
    else
      var front := PathText(path[..|path| - 1]);
      match path[|path| - 1]
      case Field(key) => ChildPath(front, key)
      case Index(i) => front + "[" + IntText(i) + "]"
  }

  function BeforeBracket(s: string): string
  {
    if s == "" || s[0] == '[' then "" else [s[0]] + BeforeBracket(s[1..])
  }

  predicate FieldHit(lib: Lib, secrets: Secrets, text: string)
  {
    exists i | 0 <= i < |secrets.fieldPatterns| :: lib.fnmatch(text, secrets.fieldPatterns[i])
  }

  predicate Hit(lib: Lib, secrets: Secrets, leaf: Leaf)
  {
    var path := PathText(leaf.path);
    var segments := Split(path);
    FieldHit(lib, secrets, path) ||
    FieldHit(lib, secrets, BeforeBracket(segments[|segments| - 1])) ||
    (leaf.value.Str? && secrets.valueHit(leaf.value.s))
  }

  function Matches(lib: Lib, secrets: Secrets, doc: Doc): set<Leaf>
  {
    set leaf | leaf in Leaves(Obj(doc)) && Hit(lib, secrets, leaf)
  }

  // ----- suggestions -----

  function ContainerOf(lib: Lib, secrets: Secrets, segments: seq<string>, i: nat): string
    requires i <= |segments|
    decreases |segments| - i
  {
    if i == |segments| then Join(segments)
    else if FieldHit(lib, secrets, BeforeBracket(segments[i])) then Join(segments[..i + 1])
    else ContainerOf(lib, secrets, segments, i + 1)
  }

  /** The shallowest secret-bearing segment of a path, or the path itself. */
  function Container(lib: Lib, secrets: Secrets, path: string): string
  {
    ContainerOf(lib, secrets, Split(path), 0)
  }

  predicate StartsWith(s: string, prefix: string)
  {
    prefix <= s
  }

  /** Replaces list positions in a printed path, so that all items of a list look the same. */
  function MaskIndices(path: seq<Part>): string
  {
    if path == [] then ""
    else
      var front := MaskIndices(path[..|path| - 1]);
      match path[|path| - 1]
      case Field(key) => ChildPath(front, key)
      case Index(_) => front + "[]"
  }

  /** The containers of some matches. */
  function ContainersOf(lib: Lib, secrets: Secrets, leaves: set<Leaf>): set<string>
  {
    set leaf | leaf in leaves :: Container(lib, secrets, MaskIndices(leaf.path))
  }

  /** The containers of all matches in the stored forms of the documents. */
  function Containers(c: Coll, secrets: Secrets, docs: seq<Doc>): set<string>
  {
    set i: nat, x | i < |docs| && x in ContainersOf(c.lib, secrets, Matches(c.lib, secrets, Stored(c, docs[i]))) :: x
  }

  predicate ChildOfAnother(p: string, all: set<string>)
  {
    exists q | q in all :: p != q && StartsWith(p, q + ".")
  }

  /** Containers that lie under no other one. */
  function Outermost(all: set<string>): set<string>
  {
    set p | p in all && !ChildOfAnother(p, all)
  }

  /** Rolls every match of one document up to its container, once each. */
  method ScanDoc(c: Coll, secrets: Secrets, doc: Doc, before: seq<string>) returns (all: seq<string>)
    ensures forall x :: x in all <==>
              x in before || x in ContainersOf(c.lib, secrets, Matches(c.lib, secrets, Stored(c, doc)))
  {
    hide Container, Matches, MaskIndices, Stored;
    all := before;
    var matches := Matches(c.lib, secrets, Stored(c, doc));
    var left := matches;
    while left != {}
      invariant left <= matches
      invariant forall x :: x in all <==> x in before || x in ContainersOf(c.lib, secrets, matches - left)
      decreases |left|
    {
      var leaf :| leaf in left;
      assert matches - (left - {leaf}) == (matches - left) + {leaf};
      left := left - {leaf};
      var container := Container(c.lib, secrets, MaskIndices(leaf.path));
      if container !in all {
        all := all + [container];
      }
    }
    assert matches - left == matches;
  }

  /** Scans every document, then drops containers that lie under another one. */
  method SuggestSecretFields(c: Coll, secrets: Secrets, docs: seq<Doc>) returns (suggested: seq<string>)
    ensures forall x :: x in suggested <==> x in Outermost(Containers(c, secrets, docs))
  {
    hide Matches, Stored;
    var all: seq<string> := [];
    for n := 0 to |docs|
      invariant forall x :: x in all <==> x in Containers(c, secrets, docs[..n])
    {
      all := ScanDoc(c, secrets, docs[n], all);
      ContainersStep(c, secrets, docs, n);
    }
    assert docs[..|docs|] == docs;
    var found := Containers(c, secrets, docs);
    suggested := [];
    for n := 0 to |all|
      invariant forall x :: x in suggested <==> x in all[..n] && !ChildOfAnother(x, found)
    {
      if !(exists i | 0 <= i < |all| :: all[n] != all[i] && StartsWith(all[n], all[i] + ".")) {
        suggested := suggested + [all[n]];
      }
      assert ChildOfAnother(all[n], found) <==>
             exists i | 0 <= i < |all| :: all[n] != all[i] && StartsWith(all[n], all[i] + ".");
    }
  }

  lemma ContainersStep(c: Coll, secrets: Secrets, docs: seq<Doc>, n: nat)
    requires n < |docs|
    ensures Containers(c, secrets, docs[..n + 1]) ==
            Containers(c, secrets, docs[..n]) + ContainersOf(c.lib, secrets, Matches(c.lib, secrets, Stored(c, docs[n])))
  {
    hide ContainersOf, Matches, Stored;
    assert docs[..n + 1][n] == docs[n];
    assert forall i | 0 <= i < n :: docs[..n + 1][i] == docs[..n][i];
  }

  // ----- what stripping removes -----

  /** Stripping this path reaches the leaf: the way there starts with its fields. */
  predicate Strips(dotted: string, leaf: Leaf)
  {
    var q := NonEmpty(Split(dotted));
    q != [] && Fields(q) <= leaf.path
  }

  predicate StrippedBySome(ps: seq<string>, leaf: Leaf)
  {
    exists i | 0 <= i < |ps| :: Strips(ps[i], leaf)
  }

  lemma FieldsSplit(q: Path, path: seq<Part>)
    requires q != []
    ensures Fields(q) <= path <==> path != [] && path[0] == Field(q[0]) && Fields(q[1..]) <= path[1..]
  {
    assert Fields(q) == [Field(q[0])] + Fields(q[1..]);
    if path != [] {
      assert path == [path[0]] + path[1..];
    }
  }

  /** Dropping a path removes the leaves it reaches and no others. */
  lemma {:induction false} LeavesAfterDrop(d: Doc, q: Path, leaf: Leaf)
    requires q != []
    ensures leaf in Leaves(Obj(Drop(d, q))) <==> leaf in Leaves(Obj(d)) && !(Fields(q) <= leaf.path)
    decreases q
  {
    hide Leaves, Fields;
    var after, k := Drop(d, q), q[0];
    FieldsSplit(q, leaf.path);
    LeafAt(d, leaf);
    LeafAt(after, leaf);
    if leaf.path != [] && leaf.path[0] == Field(k) && k in d {
      var inner := Leaf(leaf.path[1..], leaf.value);
      if |q| > 1 && d[k].Obj? {
        LeavesAfterDrop(d[k].m, q[1..], inner);
        assert after[k] == Obj(Drop(d[k].m, q[1..]));
      } else if |q| > 1 {
        FieldsSplit(q[1..], inner.path);
        if inner in Leaves(d[k]) {
          NoFieldInside(d[k], inner, q[1]);
        }
      } else if |q| == 1 {
        NoFields();
      }
    }
  }

  lemma NoFields()
    ensures Fields([]) == []
  {
  }

  lemma LeafAt(d: Doc, leaf: Leaf)
    ensures leaf in Leaves(Obj(d)) <==>
              leaf.path != [] && leaf.path[0].Field? && leaf.path[0].key in d &&
              Leaf(leaf.path[1..], leaf.value) in Leaves(d[leaf.path[0].key])
  {
    if leaf in Leaves(Obj(d)) {
      var k, inner :| k in d && inner in Leaves(d[k]) && leaf == Leaf([Field(k)] + inner.path, inner.value);
      assert leaf.path[1..] == inner.path;
    }
    if leaf.path != [] && leaf.path[0].Field? && leaf.path[0].key in d {
      var k, inner := leaf.path[0].key, Leaf(leaf.path[1..], leaf.value);
      assert leaf.path == [Field(k)] + inner.path;
      assert inner in Leaves(d[k]) ==> Leaf([Field(k)] + inner.path, inner.value) in Leaves(Obj(d));
    }
  }

  lemma {:induction false} NoFieldInside(v: Value, leaf: Leaf, k: string)
    requires !v.Obj? && leaf in Leaves(v)
    ensures leaf.path == [] || leaf.path[0] != Field(k)
  {
  }

  lemma {:induction false} LeavesAfterDropAll(d: Doc, ps: seq<string>, leaf: Leaf)
    ensures leaf in Leaves(Obj(DropAll(d, ps))) <==> leaf in Leaves(Obj(d)) && !StrippedBySome(ps, leaf)
  {
    hide Leaves;
    if ps != [] {
      var q := NonEmpty(Split(ps[0]));
      if q != [] {
        LeavesAfterDrop(d, q, leaf);
      }
      LeavesAfterDropAll(DropDotted(d, ps[0]), ps[1..], leaf);
      assert StrippedBySome(ps, leaf) <==> Strips(ps[0], leaf) || StrippedBySome(ps[1..], leaf) by {
        StrippedSplit(ps, leaf);
      }
    }
  }

  lemma StrippedSplit(ps: seq<string>, leaf: Leaf)
    requires ps != []
    ensures StrippedBySome(ps, leaf) <==> Strips(ps[0], leaf) || StrippedBySome(ps[1..], leaf)
  {
    hide Strips;
    if i :| 0 <= i < |ps| && Strips(ps[i], leaf) {
      assert i > 0 ==> ps[1..][i - 1] == ps[i];
    }
    if i :| 0 <= i < |ps[1..]| && Strips(ps[1..][i], leaf) {
      assert ps[i + 1] == ps[1..][i];
    }
  }

  lemma {:induction false} DropAllConcat(d: Doc, ps: seq<string>, qs: seq<string>)
    ensures DropAll(d, ps + qs) == DropAll(DropAll(d, ps), qs)
  {
    if ps == [] {
      assert ps + qs == qs;
    } else {
      DropAllConcat(DropDotted(d, ps[0]), ps[1..], qs);
      assert (ps + qs)[1..] == ps[1..] + qs;
    }
  }

  // ----- containers and pruning -----

  lemma {:induction false} SplitAround(a: string, b: string)
    ensures Split(a + "." + b) == Split(a) + Split(b)
    decreases |a|
  {
    if a == "" {
      assert a + "." + b == "." + b && ("." + b)[1..] == b;
    } else {
      SplitAround(a[1..], b);
      assert (a + "." + b)[1..] == a[1..] + "." + b;
    }
  }

  /** Every container is outermost, or lies under one that is. */
  lemma {:induction false} KeptAbove(all: set<string>, x: string) returns (kept: string)
    requires x in all
    ensures kept in Outermost(all) && (x == kept || StartsWith(x, kept + "."))
    decreases |x|
  {
    if ChildOfAnother(x, all) {
      var q :| q in all && x != q && StartsWith(x, q + ".");
      kept := KeptAbove(all, q);
      if q != kept {
        assert kept + "." <= q <= q + ".";
      }
    } else {
      kept := x;
    }
  }

  // ----- the segments of a masked path -----

  /** No key on the way holds a dot or a bracket, or is empty. */
  ghost predicate PlainKeys(path: seq<Part>)
  {
    forall i | 0 <= i < |path| && path[i].Field? :: Plain(path[i].key)
  }

  /** A field with the lists in it, as one segment each. */
  function Segments(path: seq<Part>): seq<string>
  {
    if path == [] then [] else Extended(Segments(path[..|path| - 1]), path[|path| - 1])
  }

  function Extended(front: seq<string>, last: Part): seq<string>
  {
    match last
    case Field(key) => front + [key]
    case Index(_) => if front == [] then [] else front[..|front| - 1] + [front[|front| - 1] + "[]"]
  }

  lemma ExtendedSplit(key: string, front: seq<string>, last: Part)
    requires front != [] || last.Field?
    ensures Extended([key] + front, last) == [key] + Extended(front, last)
  {
    if last.Index? {
      assert ([key] + front)[..|front|] == [key] + front[..|front| - 1];
    }
  }

  /** A further key makes a further segment; a list makes the last segment longer. */
  lemma ExtendedText(front: seq<string>, last: Part)
    requires front != []
    ensures Join(Extended(front, last)) == Join(front) + (if last.Field? then "." + last.key else "[]")
    ensures Extended(front, last) != [] && front[0] <= Extended(front, last)[0]
  {
    hide JoinWith;
    match last
    case Field(key) => JoinMore(front, key, '.');
    case Index(_) =>
      var m := |front| - 1;
      assert front[..m] + [front[m]] == front;
      JoinLonger(front[..m], front[m], "[]", '.');
  }

  ghost predicate AreSegments(segments: seq<string>)
  {
    segments != [] && forall i | 0 <= i < |segments| :: segments[i] != "" && '.' !in segments[i]
  }

  /** The masked text is made of these segments, and is split into them. */
  lemma {:induction false} MaskedSegments(path: seq<Part>)
    requires path != [] && path[0].Field? && PlainKeys(path)
    ensures AreSegments(Segments(path)) && MaskIndices(path) == Join(Segments(path)) != ""
    decreases |path|
  {
    hide Join, Extended;
    var n := |path| - 1;
    var front, last := path[..n], path[n];
    assert path[n] == last && (last.Field? ==> Plain(last.key));
    if n == 0 {
      FirstKey(last.key);
      assert front == [] && Segments(front) == [];
    } else {
      assert front[0] == path[0] && forall i | 0 <= i < n :: front[i] == path[i];
      MaskedSegments(front);
      ExtendedText(Segments(front), last);
      ExtendedSegments(Segments(front), last);
      Assoc(Join(Segments(front)), ".", if last.Field? then last.key else "");
    }
  }

  lemma FirstKey(key: string)
    requires Plain(key)
    ensures Extended([], Field(key)) == [key] && AreSegments([key]) && Join([key]) == key
  {
  }

  lemma ExtendedSegments(front: seq<string>, last: Part)
    requires AreSegments(front) && (last.Field? ==> Plain(last.key))
    ensures AreSegments(Extended(front, last))
  {
  }

  lemma {:induction false} SegmentsLater(path: seq<Part>)
    requires path != [] && path[0].Field?
    ensures Segments(path) != []
    decreases |path|
  {
    if |path| > 1 {
      SegmentsLater(path[..|path| - 1]);
    }
  }

  lemma {:induction false} SegmentsSplit(key: string, rest: seq<Part>)
    requires rest != [] && rest[0].Field?
    ensures Segments([Field(key)] + rest) == [key] + Segments(rest)
    decreases |rest|
  {
    var n := |rest| - 1;
    var path := [Field(key)] + rest;
    assert path[..n + 1] == [Field(key)] + rest[..n] && path[n + 1] == rest[n];
    if n == 0 {
      assert rest[..0] == [] && path[..1] == [Field(key)] && path[..1][..0] == [];
      assert Segments(path[..1]) == Extended([], Field(key)) == [key];
    } else {
      SegmentsSplit(key, rest[..n]);
      SegmentsLater(rest[..n]);
    }
    hide Segments, Extended;
    ExtendedSplit(key, Segments(rest[..n]), rest[n]);
  }

  lemma {:induction false} SegmentsInList(path: seq<Part>)
    requires |path| > 1 && path[0].Field? && path[1].Index?
    ensures Segments(path) != [] && path[0].key + "[" <= Segments(path)[0]
    decreases |path|
  {
    var n := |path| - 1;
    var front := path[..n];
    assert Segments(path) == Extended(Segments(front), path[n]);
    SegmentsLater(front);
    if n == 1 {
      assert front == [path[0]];
      OneKeyInList(path[0].key, path[1].i);
    } else {
      hide Segments, Extended;
      SegmentsInList(front);
      ExtendedText(Segments(front), path[n]);
    }
  }

  lemma OneKeyInList(key: string, i: nat)
    ensures Extended(Segments([Field(key)]), Index(i)) == [key + "[]"] && key + "[" <= key + "[]"
  {
    assert [Field(key)][..0] == [] && Segments([Field(key)]) == Extended([], Field(key)) == [key];
    assert [key][..0] + [key + "[]"] == [key + "[]"];
  }

  /** The first segment is the first key, with a bracket if a list follows. */
  lemma {:induction false} FirstSegment(path: seq<Part>)
    requires path != [] && path[0].Field?
    ensures Segments(path) != []
    ensures |path| > 1 && path[1].Index? ==> path[0].key + "[" <= Segments(path)[0]
    ensures |path| == 1 || path[1].Field? ==> Segments(path) == [path[0].key] + Segments(path[1..])
  {
    if |path| == 1 {
      assert path[..0] == [] && Segments(path[..0]) == [];
    } else if path[1].Index? {
      SegmentsInList(path);
    } else {
      assert path == [Field(path[0].key)] + path[1..];
      SegmentsSplit(path[0].key, path[1..]);
    }
  }

  // ----- what the policy finds -----

  /** The last key on the way; the positions after it belong to it. */
  function LastKey(path: seq<Part>): string
    requires path != [] && path[0].Field?
  {
    match path[|path| - 1]
    case Field(key) => key
    case Index(_) => LastKey(path[..|path| - 1])
  }

  lemma {:induction false} SplitLonger(s: string, tail: string)
    requires '.' !in tail
    ensures var parts := Split(s);
            Split(s + tail) == parts[..|parts| - 1] + [parts[|parts| - 1] + tail]
  {
    if s == "" {
      assert s + tail == tail;
      NoSeparatorInside(tail);
    } else {
      SplitLonger(s[1..], tail);
      assert (s + tail)[1..] == s[1..] + tail;
      var rest := Split(s[1..]);
      if s[0] != '.' && |rest| == 1 {
        Assoc([s[0]], rest[0], tail);
      }
    }
  }

  lemma {:induction false} OneKey(path: seq<Part>)
    requires |path| == 1 && path[0].Field? && PlainKeys(path)
    ensures PathText(path) != "" && Split(PathText(path)) == [LastKey(path)]
  {
    assert path[..0] == [] && PathText(path[..0]) == "" && Plain(path[0].key);
    NoSeparatorInside(path[0].key);
  }

  /** The last segment of the printed path is the last key, with the positions after it. */
  lemma {:induction false} LastSegment(path: seq<Part>) returns (rest: string)
    requires path != [] && path[0].Field? && PlainKeys(path)
    ensures PathText(path) != "" && (rest == "" || rest[0] == '[')
    ensures var parts := Split(PathText(path)); parts[|parts| - 1] == LastKey(path) + rest
    decreases |path|
  {
    var n := |path| - 1;
    var front, last := path[..n], path[n];
    assert path[n] == last && (last.Field? ==> Plain(last.key));
    if n == 0 {
      OneKey(path);
      rest := "";
      hide PathText, Split, LastKey;
      assert LastKey(path) + rest == LastKey(path);
    } else {
      assert front[0] == path[0] && forall i | 0 <= i < n :: front[i] == path[i];
      rest := LastSegment(front);
      hide PathText, Split, IntText;
      match last
      case Field(key) =>
        KeyComesLast(PathText(front), key);
        assert PathText(path) == ChildPath(PathText(front), key) by {
          PathStep(path);
        }
        rest := "";
        assert key + rest == key;
      case Index(i) =>
        var tail := "[" + IntText(i) + "]";
        assert PathText(path) == PathText(front) + tail by {
          PathStep(path);
          Assoc(PathText(front), "[", IntText(i));
          Assoc(PathText(front), "[" + IntText(i), "]");
        }
        PositionComesLast(PathText(front), LastKey(front), rest, i);
        rest := rest + tail;
    }
  }

  lemma {:induction false} PathStep(path: seq<Part>)
    requires path != []
    ensures var front := PathText(path[..|path| - 1]);
            PathText(path) ==
              match path[|path| - 1]
              case Field(key) => ChildPath(front, key)
              case Index(i) => front + "[" + IntText(i) + "]"
  {
  }

  lemma KeyComesLast(front: string, key: string)
    requires Plain(key)
    ensures var parts := Split(ChildPath(front, key)); parts[|parts| - 1] == key
  {
    NoSeparatorInside(key);
    if front != "" {
      SplitAround(front, key);
    }
  }

  lemma PositionComesLast(front: string, name: string, rest: string, i: nat)
    requires var parts := Split(front); parts[|parts| - 1] == name + rest
    ensures var tail := "[" + IntText(i) + "]";
            var parts := Split(front + tail); parts[|parts| - 1] == name + (rest + tail)
  {
    var tail := "[" + IntText(i) + "]";
    DigitsRead(i);
    assert forall x | 0 <= x < |IntText(i)| :: IsDigit(IntText(i)[x]);
    SplitLonger(front, tail);
    Assoc(name, rest, tail);
  }

  /** For paths of plain keys, a scalar of a document is a match exactly when a field pattern fits its printed
      path or its last key, at whatever depth and in lists too, or it is a text with a value pattern in it. */
  lemma {:induction false} MatchIff(lib: Lib, secrets: Secrets, doc: Doc, leaf: Leaf)
    requires PlainKeys(leaf.path)
    ensures leaf in Matches(lib, secrets, doc) <==>
              && leaf in Leaves(Obj(doc)) && leaf.path != [] && leaf.path[0].Field?
              && (FieldHit(lib, secrets, LastKey(leaf.path)) || FieldHit(lib, secrets, PathText(leaf.path)) ||
                  (leaf.value.Str? && secrets.valueHit(leaf.value.s)))
  {
    hide Leaves, FieldHit, PathText, LastKey;
    LeafAt(doc, leaf);
    if leaf in Leaves(Obj(doc)) {
      var rest := LastSegment(leaf.path);
      KeyHasNoBracket(leaf.path);
      PlainBeforeBracket(LastKey(leaf.path), rest);
    }
  }

  lemma {:induction false} KeyHasNoBracket(path: seq<Part>)
    requires path != [] && path[0].Field? && PlainKeys(path)
    ensures '[' !in LastKey(path)
    decreases |path|
  {
    var n := |path| - 1;
    assert path[n].Field? ==> Plain(path[n].key);
    if path[n].Index? {
      assert forall i | 0 <= i < n :: path[..n][i] == path[i];
      KeyHasNoBracket(path[..n]);
    }
  }

  // ----- what a suggestion reaches -----

  /** The fields that stripping the container of a match removes at: down to its first secret-bearing
      key, or all of them. None when a list position lies on that way or right at its end, because
      then the container names a field that is not there. */
  function Advised(lib: Lib, secrets: Secrets, path: seq<Part>): Option<Path>
  {
    if path == [] then Some([])
    else if path[0].Index? then None
    else if FieldHit(lib, secrets, path[0].key) then
      if |path| > 1 && path[1].Index? then None else Some([path[0].key])
    else
      match Advised(lib, secrets, path[1..])
      case None => None
      case Some(q) => Some([path[0].key] + q)
  }

  /** The container of one match strips another one. */
  ghost predicate Reaches(lib: Lib, secrets: Secrets, path: seq<Part>, leaf: seq<Part>)
  {
    Advised(lib, secrets, path).Some? && Fields(Advised(lib, secrets, path).value) <= leaf
  }

  /** The number of segments of the container. */
  function HitDepth(lib: Lib, secrets: Secrets, segments: seq<string>): (n: nat)
    ensures n <= |segments| && (segments != [] ==> n > 0)
  {
    if segments == [] then 0
    else if FieldHit(lib, secrets, BeforeBracket(segments[0])) then 1
    else 1 + HitDepth(lib, secrets, segments[1..])
  }

  lemma {:induction false} ContainerIs(lib: Lib, secrets: Secrets, segments: seq<string>, i: nat)
    requires i <= |segments|
    ensures ContainerOf(lib, secrets, segments, i) == Join(segments[..i + HitDepth(lib, secrets, segments[i..])])
    decreases |segments| - i
  {
    hide FieldHit;
    if i == |segments| {
      assert segments[i..] == [] && segments[..i] == segments;
    } else {
      assert segments[i..][0] == segments[i] && segments[i..][1..] == segments[i + 1..];
      ContainerIs(lib, secrets, segments, i + 1);
    }
  }

  lemma {:induction false} PlainBeforeBracket(name: string, rest: string)
    requires '[' !in name && (rest == "" || rest[0] == '[')
    ensures BeforeBracket(name + rest) == name
  {
    if name == "" {
      assert name + rest == rest;
    } else {
      PlainBeforeBracket(name[1..], rest);
      assert (name + rest)[1..] == name[1..] + rest;
    }
  }

  /** The segments of the container are the advised fields, or reach nothing. */
  lemma {:induction false} AdvisedIs(lib: Lib, secrets: Secrets, path: seq<Part>, leaf: seq<Part>)
    requires path != [] && path[0].Field? && PlainKeys(path) && PlainKeys(leaf)
    ensures var segs := Segments(path);
            Fields(segs[..HitDepth(lib, secrets, segs)]) <= leaf <==> Reaches(lib, secrets, path, leaf)
    decreases |path|
  {
    hide FieldHit, Fields, Reaches, HitDepth, Segments;
    var segs, key := Segments(path), path[0].key;
    FirstSegment(path);
    DepthStep(lib, secrets, segs, leaf);
    AdvisedStep(lib, secrets, path, leaf);
    assert Plain(key);
    if |path| > 1 && path[1].Index? {
      BracketIsNoKey(key, segs[0], leaf);
    } else {
      PlainBeforeBracket(key, "");
      assert key + "" == key && segs[0] == key && segs[1..] == Segments(path[1..]);
      if leaf != [] && leaf[0] == Field(key) {
        if |path| == 1 {
          NothingReaches(lib, secrets, leaf[1..]);
          assert path[1..] == [] && segs[1..] == [] && segs[1..][..0] == [];
        } else {
          AdvisedIs(lib, secrets, path[1..], leaf[1..]);
        }
      }
    }
  }

  lemma {:induction false} NothingReaches(lib: Lib, secrets: Secrets, leaf: seq<Part>)
    ensures Segments([]) == [] && HitDepth(lib, secrets, []) == 0 && Fields([]) == []
    ensures Reaches(lib, secrets, [], leaf)
  {
  }

  lemma {:induction false} DepthStep(lib: Lib, secrets: Secrets, segs: seq<string>, leaf: seq<Part>)
    requires segs != []
    ensures Fields(segs[..HitDepth(lib, secrets, segs)]) <= leaf <==>
              leaf != [] && leaf[0] == Field(segs[0]) &&
              (FieldHit(lib, secrets, BeforeBracket(segs[0])) ||
               Fields(segs[1..][..HitDepth(lib, secrets, segs[1..])]) <= leaf[1..])
  {
    hide FieldHit, Fields;
    var n := HitDepth(lib, secrets, segs);
    FieldsSplit(segs[..n], leaf);
    assert segs[..n][0] == segs[0] && segs[..n][1..] == segs[1..][..n - 1];
    NoFields();
  }

  lemma BracketIsNoKey(key: string, segment: string, leaf: seq<Part>)
    requires key + "[" <= segment && PlainKeys(leaf)
    ensures leaf != [] ==> leaf[0] != Field(segment)
  {
    assert segment[|key|] == '[';
  }

  lemma AdvisedStep(lib: Lib, secrets: Secrets, path: seq<Part>, leaf: seq<Part>)
    requires path != [] && path[0].Field?
    ensures Reaches(lib, secrets, path, leaf) <==>
              !(|path| > 1 && path[1].Index?) && leaf != [] && leaf[0] == path[0] &&
              (FieldHit(lib, secrets, path[0].key) || Reaches(lib, secrets, path[1..], leaf[1..]))
  {
    hide FieldHit, Fields;
    var key, inner := path[0].key, Advised(lib, secrets, path[1..]);
    NoFields();
    FieldsSplit([key], leaf);
    assert [key][1..] == [];
    if inner.Some? {
      FieldsSplit([key] + inner.value, leaf);
      assert ([key] + inner.value)[1..] == inner.value;
    }
  }

  /** Stripping the container of a match reaches what the match advises. */
  lemma {:induction false} ContainerStrips(lib: Lib, secrets: Secrets, path: seq<Part>, leaf: Leaf)
    requires path != [] && path[0].Field? && PlainKeys(path) && PlainKeys(leaf.path)
    ensures var x := Container(lib, secrets, MaskIndices(path));
            NonEmpty(Split(x)) != [] && (Strips(x, leaf) <==> Reaches(lib, secrets, path, leaf.path))
  {
    hide FieldHit, Fields, Reaches, MaskIndices, Segments;
    var segs := Segments(path);
    var n := HitDepth(lib, secrets, segs);
    MaskedSegments(path);
    SplitJoined(segs, '.');
    ContainerIs(lib, secrets, segs, 0);
    assert segs[0..] == segs;
    SplitJoined(segs[..n], '.');
    NonEmptyPlain(segs[..n]);
    AdvisedIs(lib, secrets, path, leaf.path);
  }

  lemma {:induction false} NonEmptyConcat(a: seq<string>, b: seq<string>)
    ensures NonEmpty(a + b) == NonEmpty(a) + NonEmpty(b)
  {
    if a == [] {
      assert a + b == b;
    } else {
      NonEmptyConcat(a[1..], b);
      assert (a + b)[0] == a[0] && (a + b)[1..] == a[1..] + b;
      Assoc(if a[0] == "" then [] else [a[0]], NonEmpty(a[1..]), NonEmpty(b));
    }
  }

  /** Dropping the containers that lie under another one loses nothing. */
  lemma PruningReaches(all: set<string>, x: string, leaf: Leaf) returns (kept: string)
    requires x in all && Strips(x, leaf) && forall y | y in all :: NonEmpty(Split(y)) != []
    ensures kept in Outermost(all) && Strips(kept, leaf)
  {
    hide Outermost;
    kept := KeptAbove(all, x);
    assert kept in all by {
      OutermostIsPart(all, kept);
    }
    if x != kept {
      var rest := x[|kept| + 1..];
      assert x == kept + "." + rest;
      SplitAround(kept, rest);
      NonEmptyConcat(Split(kept), Split(rest));
      var q, r := NonEmpty(Split(kept)), NonEmpty(Split(x));
      assert q == r[..|q|] && Fields(q) == Fields(r)[..|q|];
      assert Fields(q) <= Fields(r) <= leaf.path;
    }
  }

  lemma OutermostIsPart(all: set<string>, x: string)
    requires x in Outermost(all)
    ensures x in all
  {
  }

  // ----- when the advice works -----

  /** A match in the stored form of some scanned document. */
  ghost predicate Matched(c: Coll, secrets: Secrets, docs: seq<Doc>, leaf: Leaf)
  {
    exists n: nat :: n < |docs| && leaf in Matches(c.lib, secrets, Stored(c, docs[n]))
  }

  ghost predicate PlainMatches(c: Coll, secrets: Secrets, docs: seq<Doc>)
  {
    forall leaf | Matched(c, secrets, docs, leaf) :: PlainKeys(leaf.path)
  }

  lemma MatchHasField(c: Coll, secrets: Secrets, docs: seq<Doc>, leaf: Leaf)
    requires Matched(c, secrets, docs, leaf)
    ensures leaf.path != [] && leaf.path[0].Field?
  {
    hide Leaves, Hit, Stored;
    var n: nat :| n < |docs| && leaf in Matches(c.lib, secrets, Stored(c, docs[n]));
    LeafAt(Stored(c, docs[n]), leaf);
  }

  lemma ContainersAre(c: Coll, secrets: Secrets, docs: seq<Doc>, x: string)
    ensures x in Containers(c, secrets, docs) <==>
              exists leaf :: Matched(c, secrets, docs, leaf) && x == Container(c.lib, secrets, MaskIndices(leaf.path))
  {
    hide Matches, Stored, Container, MaskIndices;
    if leaf :| Matched(c, secrets, docs, leaf) && x == Container(c.lib, secrets, MaskIndices(leaf.path)) {
      var n: nat :| n < |docs| && leaf in Matches(c.lib, secrets, Stored(c, docs[n]));
      assert x in ContainersOf(c.lib, secrets, Matches(c.lib, secrets, Stored(c, docs[n])));
    }
    if x in Containers(c, secrets, docs) {
      var n: nat :| n < |docs| && x in ContainersOf(c.lib, secrets, Matches(c.lib, secrets, Stored(c, docs[n])));
      var leaf :| leaf in Matches(c.lib, secrets, Stored(c, docs[n])) &&
                  x == Container(c.lib, secrets, MaskIndices(leaf.path));
      assert Matched(c, secrets, docs, leaf);
    }
  }

  /** The match is stripped by the advice of some match. */
  ghost predicate Covered(c: Coll, secrets: Secrets, docs: seq<Doc>, leaf: Leaf)
  {
    exists other :: Matched(c, secrets, docs, other) && Reaches(c.lib, secrets, other.path, leaf.path)
  }

  /** The suggestions strip exactly the matches that the container of some match reaches. */
  lemma SuggestionsReach(c: Coll, secrets: Secrets, docs: seq<Doc>, suggested: seq<string>, leaf: Leaf)
    requires PlainMatches(c, secrets, docs) && PlainKeys(leaf.path)
    requires forall x :: x in suggested <==> x in Outermost(Containers(c, secrets, docs))
    ensures StrippedBySome(suggested, leaf) <==> Covered(c, secrets, docs, leaf)
  {
    hide Matched, Container, MaskIndices, Strips, Reaches, Containers, Outermost;
    var all := Containers(c, secrets, docs);
    forall x | x in all ensures NonEmpty(Split(x)) != [] && (Strips(x, leaf) ==> Covered(c, secrets, docs, leaf)) {
      ContainersAre(c, secrets, docs, x);
      var other :| Matched(c, secrets, docs, other) && x == Container(c.lib, secrets, MaskIndices(other.path));
      MatchHasField(c, secrets, docs, other);
      ContainerStrips(c.lib, secrets, other.path, leaf);
    }
    if i :| 0 <= i < |suggested| && Strips(suggested[i], leaf) {
      assert suggested[i] in suggested;
      OutermostIsPart(all, suggested[i]);
    }
    if other :| Matched(c, secrets, docs, other) && Reaches(c.lib, secrets, other.path, leaf.path) {
      var x := Container(c.lib, secrets, MaskIndices(other.path));
      ContainersAre(c, secrets, docs, x);
      MatchHasField(c, secrets, docs, other);
      ContainerStrips(c.lib, secrets, other.path, leaf);
      var kept := PruningReaches(all, x, leaf);
      var i :| 0 <= i < |suggested| && suggested[i] == kept;
      assert Strips(suggested[i], leaf);
    }
  }

  /** Exactly when adding secret fields leaves no match: when each match of the first scan starts with
      the fields of one of them. */
  lemma AdviceWorksIff(c: Coll, secrets: Secrets, doc: Doc, suggested: seq<string>)
    ensures Matches(c.lib, secrets, Stored(c.(secretFields := c.secretFields + suggested), doc)) == {} <==>
              forall leaf | leaf in Matches(c.lib, secrets, Stored(c, doc)) :: StrippedBySome(suggested, leaf)
  {
    hide Leaves, Hit, StrippedBySome;
    var scan := Stored(c, doc);
    DropAllConcat(doc, c.secretFields, suggested);
    forall leaf
      ensures leaf in Leaves(Obj(DropAll(scan, suggested))) <==>
                leaf in Leaves(Obj(scan)) && !StrippedBySome(suggested, leaf)
    {
      LeavesAfterDropAll(scan, suggested, leaf);
    }
    var left := Matches(c.lib, secrets, DropAll(scan, suggested));
    if leaf :| leaf in Matches(c.lib, secrets, scan) && !StrippedBySome(suggested, leaf) {
      assert leaf in left;
    }
  }

  /** Exactly when doctor's own advice works for all scanned documents: when each match starts with the
      advised fields of some match, itself or another. A list on the way to a match does no harm
      exactly when such a container lies above it. */
  lemma SuggestionsWorkIff(c: Coll, secrets: Secrets, docs: seq<Doc>, suggested: seq<string>)
    requires PlainMatches(c, secrets, docs)
    requires forall x :: x in suggested <==> x in Outermost(Containers(c, secrets, docs))
    ensures (forall n: nat | n < |docs| ::
               Matches(c.lib, secrets, Stored(c.(secretFields := c.secretFields + suggested), docs[n])) == {}) <==>
            forall leaf | Matched(c, secrets, docs, leaf) :: Covered(c, secrets, docs, leaf)
  {
    hide Matches, Stored, StrippedBySome, Covered, Outermost, Containers, PlainKeys;
    var fixedColl := c.(secretFields := c.secretFields + suggested);
    forall n: nat | n < |docs|
      ensures Matches(c.lib, secrets, Stored(fixedColl, docs[n])) == {} <==>
                forall leaf | leaf in Matches(c.lib, secrets, Stored(c, docs[n])) :: Covered(c, secrets, docs, leaf)
    {
      AdviceWorksIff(c, secrets, docs[n], suggested);
      forall leaf | leaf in Matches(c.lib, secrets, Stored(c, docs[n]))
        ensures StrippedBySome(suggested, leaf) <==> Covered(c, secrets, docs, leaf)
      {
        assert Matched(c, secrets, docs, leaf);
        SuggestionsReach(c, secrets, docs, suggested, leaf);
      }
    }
  }

  /** The way to the leaf is through objects with plain keys only. */
  ghost predicate UnderObjects(leaf: Leaf)
  {
    exists p: Path :: p != [] && PlainPath(p) && leaf.path == Fields(p)
  }

  lemma {:induction false} AdvisedUnderObjects(lib: Lib, secrets: Secrets, p: Path)
    ensures Advised(lib, secrets, Fields(p)).Some? && Advised(lib, secrets, Fields(p)).value <= p
  {
    hide FieldHit;
    if p != [] {
      AdvisedUnderObjects(lib, secrets, p[1..]);
      assert Fields(p)[1..] == Fields(p[1..]);
      assert p == [p[0]] + p[1..];
    }
  }

  /** Every match in the stored forms lies under objects with plain keys. */
  ghost predicate MatchesUnderObjects(c: Coll, secrets: Secrets, docs: seq<Doc>)
  {
    forall leaf | Matched(c, secrets, docs, leaf) :: UnderObjects(leaf)
  }

  /** In particular when every match lies under objects with plain keys: then adding the suggested
      secret fields leaves no match in the stored form of any scanned document, so the secret scan of
      an import has nothing to refuse. */
  lemma AdviceWorks(c: Coll, secrets: Secrets, docs: seq<Doc>, suggested: seq<string>, n: nat)
    requires n < |docs| && MatchesUnderObjects(c, secrets, docs)
    requires forall x :: x in suggested <==> x in Outermost(Containers(c, secrets, docs))
    ensures Matches(c.lib, secrets, Stored(c.(secretFields := c.secretFields + suggested), docs[n])) == {}
  {
    hide Matches, Stored, Matched, Outermost, Containers, Advised;
    forall leaf | Matched(c, secrets, docs, leaf)
      ensures PlainKeys(leaf.path) && Reaches(c.lib, secrets, leaf.path, leaf.path)
    {
      assert UnderObjects(leaf);
      var p: Path :| p != [] && PlainPath(p) && leaf.path == Fields(p);
      AdvisedUnderObjects(c.lib, secrets, p);
    }
    SuggestionsWorkIff(c, secrets, docs, suggested);
  }

  /** With more secret fields, importing an unrecorded document is refused for its secrets exactly when
      some match of it starts with the fields of none of them. */
  lemma ImportRefusedIff(p: Project, ref: Ref, c: Coll, secrets: Secrets, doc: Doc, suggested: seq<string>,
                         head: Option<HeadRow>, now: int)
    requires p.coll(ref.collection) == c.(secretFields := c.secretFields + suggested)
    requires forall d :: p.refuses(d) <==> Matches(c.lib, secrets, d) != {}
    ensures DecideImport(p, ref, Some(doc), head, false, now) == Raise(SecretBlocked) <==>
              head == None &&
              exists leaf :: leaf in Matches(c.lib, secrets, Stored(c, doc)) && !StrippedBySome(suggested, leaf)
  {
    hide Matches, Stored, StrippedBySome;
    AdviceWorksIff(c, secrets, doc, suggested);
  }

  /** So importing a scanned record is no longer refused for its secrets. */
  lemma AdviceUnblocksImport(p: Project, ref: Ref, c: Coll, secrets: Secrets, docs: seq<Doc>, suggested: seq<string>,
                             n: nat, head: Option<HeadRow>, now: int)
    requires n < |docs| && MatchesUnderObjects(c, secrets, docs)
    requires forall x :: x in suggested <==> x in Outermost(Containers(c, secrets, docs))
    requires p.coll(ref.collection) == c.(secretFields := c.secretFields + suggested)
    requires forall d :: p.refuses(d) <==> Matches(c.lib, secrets, d) != {}
    ensures DecideImport(p, ref, Some(docs[n]), head, false, now) != Raise(SecretBlocked)
  {
    AdviceWorks(c, secrets, docs, suggested, n);
  }

  // ----- secrets in a list -----

  lemma {:induction false} NoSeparatorInside(s: string)
    requires '.' !in s
    ensures Split(s) == [s]
  {
    SplitJoined([s], '.');
  }

  lemma {:induction false} BeforeBracketIs(name: string, rest: string)
    requires '[' !in name
    ensures BeforeBracket(name + "[" + rest) == name
  {
    PlainBeforeBracket(name, "[" + rest);
    Assoc(name, "[", rest);
  }

  /** A list of one text under a key. */
  function ListDoc(key: string, text: string): Doc
  {
    map[key := Arr([Str(text)])]
  }

  lemma ListLeaves(key: string, text: string)
    ensures Leaves(Obj(ListDoc(key, text))) == {Leaf([Field(key), Index(0)], Str(text))}
  {
    var xs := [Str(text)];
    assert Leaves(xs[0]) == {Leaf([], Str(text))};
    forall leaf ensures leaf in Leaves(Arr(xs)) <==> leaf == Leaf([Index(0)], Str(text)) {
      if leaf == Leaf([Index(0)], Str(text)) {
        assert leaf == Leaf([Index(0)] + [], Str(text)) && Leaf([], Str(text)) in Leaves(xs[0]);
      }
    }
    forall leaf ensures leaf in Leaves(Obj(ListDoc(key, text))) <==> leaf == Leaf([Field(key), Index(0)], Str(text)) {
      LeafAt(ListDoc(key, text), leaf);
      assert leaf == Leaf([Field(key), Index(0)], Str(text)) ==> leaf.path[1..] == [Index(0)];
      assert leaf.path != [] && leaf.path[1..] == [Index(0)] ==> leaf.path == [leaf.path[0], Index(0)];
    }
  }

  lemma ListPaths(key: string)
    requires Plain(key)
    ensures PathText([Field(key), Index(0)]) == key + "[" + IntText(0) + "]"
    ensures MaskIndices([Field(key), Index(0)]) == key + "[" + "]"
  {
    var path: seq<Part> := [Field(key), Index(0)];
    assert path[..1] == [Field(key)] && [Field(key)][..0] == [];
    assert PathText([Field(key)]) == ChildPath("", key) == key;
    assert MaskIndices([Field(key)]) == ChildPath("", key) == key;
  }

  /** Concrete input: a secret text in a list. The suggestion ends in `[]`, which names no field, so
      it strips nothing and the import stays refused. */
  lemma {:induction false} ListSecretStays(c: Coll, secrets: Secrets, key: string, text: string)
    requires Plain(key) && FieldHit(c.lib, secrets, key) && c.secretFields == []
    ensures var doc, suggestion := ListDoc(key, text), key + "[" + "]";
            && Outermost(Containers(c, secrets, [doc])) == {suggestion}
            && Matches(c.lib, secrets, Stored(c.(secretFields := [suggestion]), doc)) != {}
  {
    hide Leaves, FieldHit, PathText, MaskIndices;
    var doc, suggestion, digit := ListDoc(key, text), key + "[" + "]", IntText(0);
    var leaf := Leaf([Field(key), Index(0)], Str(text));
    ListLeaves(key, text);
    ListPaths(key);
    DigitIsPlain();
    assert '.' !in key + "[" + digit + "]";
    NoSeparatorInside(key + "[" + digit + "]");
    NoSeparatorInside(suggestion);
    BeforeBracketIs(key, digit + "]");
    BeforeBracketIs(key, "]");
    assert key + "[" + digit + "]" == key + "[" + (digit + "]");
    assert Stored(c, doc) == doc && Matches(c.lib, secrets, doc) == {leaf};
    ListContainer(c, secrets, key);
    assert Containers(c, secrets, [doc]) == {suggestion} by {
      assert [doc][0] == doc;
      OneContainer(c, secrets, doc, leaf, suggestion);
    }
    assert c.secretFields + [suggestion] == [suggestion];
    SuggestionStripsNothing(suggestion, key, leaf);
    AdviceWorksIff(c, secrets, doc, [suggestion]);
  }

  lemma DigitIsPlain()
    ensures IntText(0) == "0"
  {
    assert Digits(0) == "0";
  }

  lemma ListContainer(c: Coll, secrets: Secrets, key: string)
    requires Plain(key) && FieldHit(c.lib, secrets, key)
    ensures Container(c.lib, secrets, key + "[" + "]") == key + "[" + "]"
  {
    var s := key + "[" + "]";
    NoSeparatorInside(s);
    BeforeBracketIs(key, "]");
    assert [s][..1] == [s];
    assert Join([s]) == s;
  }

  lemma OneContainer(c: Coll, secrets: Secrets, doc: Doc, leaf: Leaf, suggestion: string)
    requires Matches(c.lib, secrets, Stored(c, doc)) == {leaf}
    requires Container(c.lib, secrets, MaskIndices(leaf.path)) == suggestion
    ensures Containers(c, secrets, [doc]) == {suggestion}
  {
    hide Matches, Stored, Container, MaskIndices;
    assert ContainersOf(c.lib, secrets, {leaf}) == {suggestion};
    assert [doc][0] == doc;
    assert forall i: nat | i < |[doc]| :: [doc][i] == doc;
  }

  lemma SuggestionStripsNothing(suggestion: string, key: string, leaf: Leaf)
    requires suggestion == key + "[" + "]" && '.' !in key && leaf.path == [Field(key), Index(0)]
    ensures !StrippedBySome([suggestion], leaf)
  {
    NoSeparatorInside(suggestion);
    assert NonEmpty([suggestion]) == [suggestion] + NonEmpty([]);
    FieldsSplit([suggestion], leaf.path);
    assert |suggestion| != |key|;
  }
}
