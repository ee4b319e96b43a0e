/** The line diff of the local UI: a longest-common-subsequence edit script, its line numbers,
    and the folding of long unchanged runs. */
module LineDiff {
  import opened Documents
  import opened Texts

  // ----- common subsequences -----

  predicate Subsequence(c: seq<string>, a: seq<string>)
  {
    c == [] || (a != [] && ((c[0] == a[0] && Subsequence(c[1..], a[1..])) || Subsequence(c, a[1..])))
  }

  function Max(x: nat, y: nat): nat
  {
    if x >= y then x else y
  }

  /** The value the table holds for two remaining texts. */
  function Lcs(a: seq<string>, b: seq<string>): nat
    decreases |a| + |b|
  {
    if a == [] || b == [] then 0
    else if a[0] == b[0] then Lcs(a[1..], b[1..]) + 1
    else Max(Lcs(a[1..], b), Lcs(a, b[1..]))
  }

  lemma {:induction false} DropHead(c: seq<string>, a: seq<string>)
    requires c != [] && Subsequence(c, a)
    ensures Subsequence(c[1..], a)
    decreases |a|
  {
    if !(c[0] == a[0] && Subsequence(c[1..], a[1..])) {
      DropHead(c, a[1..]);
    }
  }

  /** No common subsequence is longer than the table says. */
  lemma {:induction false} LcsBounds(c: seq<string>, a: seq<string>, b: seq<string>)
    requires Subsequence(c, a) && Subsequence(c, b)
    ensures |c| <= Lcs(a, b)
    decreases |a| + |b|
  {
    if c != [] {
      if a[0] == b[0] {
        if !(c[0] == a[0] && Subsequence(c[1..], a[1..])) {
          DropHead(c, a[1..]);
        }
        if !(c[0] == b[0] && Subsequence(c[1..], b[1..])) {
          DropHead(c, b[1..]);
        }
        LcsBounds(c[1..], a[1..], b[1..]);
      } else if c[0] != a[0] {
        LcsBounds(c, a[1..], b);
      } else {
        LcsBounds(c, a, b[1..]);
      }
    }
  }

  // ----- edit scripts -----

  datatype Kind = Ctx | Del | Add

  /** One row of the diff: its lines on either side, and their numbers once given. */
  datatype Op = Op(t: Kind, l: Option<string>, r: Option<string>, ln: Option<nat>, rn: Option<nat>)

  function CtxOp(line: string): Op { Op(Ctx, Some(line), Some(line), None, None) }
  function DelOp(line: string): Op { Op(Del, Some(line), None, None, None) }
  function AddOp(line: string): Op { Op(Add, None, Some(line), None, None) }

  function Lefts(ops: seq<Op>): seq<string>
  {
    if ops == [] then [] else Lefts(ops[..|ops| - 1]) + (if ops[|ops| - 1].l.Some? then [ops[|ops| - 1].l.value] else [])
  }

  function Rights(ops: seq<Op>): seq<string>
  {
    if ops == [] then [] else Rights(ops[..|ops| - 1]) + (if ops[|ops| - 1].r.Some? then [ops[|ops| - 1].r.value] else [])
  }

  function Count(ops: seq<Op>, t: Kind): nat
  {
    if ops == [] then 0 else Count(ops[..|ops| - 1], t) + (if ops[|ops| - 1].t == t then 1 else 0)
  }

  /** A context row shows the same line twice, a deletion a left line, an addition a right line. */
  ghost predicate Row(op: Op)
  {
    match op.t
    case Ctx => op.l.Some? && op.r == op.l
    case Del => op.l.Some? && op.r.None?
    case Add => op.l.None? && op.r.Some?
  }

  ghost predicate Script(ops: seq<Op>)
  {
    forall k | 0 <= k < |ops| :: Row(ops[k])
  }

  /** `ops` turns the lines `a` into the lines `b`. */
  ghost predicate Edits(ops: seq<Op>, a: seq<string>, b: seq<string>)
  {
    Script(ops) && Lefts(ops) == a && Rights(ops) == b
  }

  ghost function Commons(ops: seq<Op>): seq<string>
    requires Script(ops)
  {
    if ops == [] then []
    else Commons(ops[..|ops| - 1]) + (if ops[|ops| - 1].t == Ctx then [ops[|ops| - 1].l.value] else [])
  }

  lemma {:induction false} AppendLine(c: seq<string>, a: seq<string>, x: string)
    requires Subsequence(c, a)
    ensures Subsequence(c + [x], a + [x]) && Subsequence(c, a + [x])
    decreases |a|
  {
    if c == [] {
      if a != [] {
        AppendLine(c, a[1..], x);
        assert (a + [x])[1..] == a[1..] + [x];
      }
    } else {
      assert (a + [x])[1..] == a[1..] + [x] && (c + [x])[1..] == c[1..] + [x];
      if c[0] == a[0] && Subsequence(c[1..], a[1..]) {
        AppendLine(c[1..], a[1..], x);
      } else {
        AppendLine(c, a[1..], x);
      }
    }
  }

  lemma {:induction false} CommonsAreCommon(ops: seq<Op>)
    requires Script(ops)
    ensures Subsequence(Commons(ops), Lefts(ops)) && Subsequence(Commons(ops), Rights(ops))
    ensures |Commons(ops)| == Count(ops, Ctx)
    ensures |Lefts(ops)| == Count(ops, Ctx) + Count(ops, Del)
    ensures |Rights(ops)| == Count(ops, Ctx) + Count(ops, Add)
  {
    if ops != [] {
      var rest, last := ops[..|ops| - 1], ops[|ops| - 1];
      CommonsAreCommon(rest);
      assert Row(last) && Commons(rest) + [] == Commons(rest);
      assert Lefts(rest) + [] == Lefts(rest) && Rights(rest) + [] == Rights(rest);
      if last.l.Some? {
        AppendLine(Commons(rest), Lefts(rest), last.l.value);
      }
      if last.r.Some? {
        AppendLine(Commons(rest), Rights(rest), last.r.value);
      }
    }
  }

  /** A script whose context is as long as the table says has no more deletions and additions
      than any other script between the same texts. */
  lemma {:induction false} FewestEdits(ops: seq<Op>, other: seq<Op>, a: seq<string>, b: seq<string>)
    requires Edits(ops, a, b) && Count(ops, Ctx) == Lcs(a, b)
    requires Edits(other, a, b)
    ensures Count(other, Ctx) <= Count(ops, Ctx)
    ensures Count(ops, Del) + Count(ops, Add) <= Count(other, Del) + Count(other, Add)
  {
    CommonsAreCommon(ops);
    CommonsAreCommon(other);
    LcsBounds(Commons(other), a, b);
  }

  /** Its context lines are a longest common subsequence. */
  lemma {:induction false} ContextIsLongest(ops: seq<Op>, a: seq<string>, b: seq<string>, c: seq<string>)
    requires Edits(ops, a, b) && Count(ops, Ctx) == Lcs(a, b)
    requires Subsequence(c, a) && Subsequence(c, b)
    ensures Subsequence(Commons(ops), a) && Subsequence(Commons(ops), b)
    ensures |c| <= |Commons(ops)| == Count(ops, Ctx)
  {
    CommonsAreCommon(ops);
    LcsBounds(c, a, b);
  }

  lemma LcsStep(a: seq<string>, b: seq<string>, i: nat, j: nat)
    requires i < |a| && j < |b|
    ensures Lcs(a[i..], b[j..]) ==
            if a[i] == b[j] then Lcs(a[i + 1..], b[j + 1..]) + 1
            else Max(Lcs(a[i + 1..], b[j..]), Lcs(a[i..], b[j + 1..]))
  {
    assert a[i..][1..] == a[i + 1..] && b[j..][1..] == b[j + 1..];
  }

  lemma LcsChoice(a: seq<string>, b: seq<string>, i: nat, j: nat)
    requires i < |a| && j < |b|
    ensures a[i] == b[j] ==> Lcs(a[i..], b[j..]) == Lcs(a[i + 1..], b[j + 1..]) + 1
    ensures a[i] != b[j] && Lcs(a[i + 1..], b[j..]) >= Lcs(a[i..], b[j + 1..]) ==>
              Lcs(a[i..], b[j..]) == Lcs(a[i + 1..], b[j..])
    ensures a[i] != b[j] && Lcs(a[i + 1..], b[j..]) < Lcs(a[i..], b[j + 1..]) ==>
              Lcs(a[i..], b[j..]) == Lcs(a[i..], b[j + 1..])
  {
    LcsStep(a, b, i, j);
  }

  /** Any script grows by one row: a line on both sides, on the left, or on the right. */
  lemma {:induction false} Grow(ops: seq<Op>, a: seq<string>, b: seq<string>, i: nat, j: nat)
    requires i <= |a| && j <= |b| && Edits(ops, a[..i], b[..j])
    ensures i < |a| && j < |b| && a[i] == b[j] ==>
              Edits(ops + [CtxOp(a[i])], a[..i + 1], b[..j + 1]) && Count(ops + [CtxOp(a[i])], Ctx) == Count(ops, Ctx) + 1
    ensures i < |a| ==>
              Edits(ops + [DelOp(a[i])], a[..i + 1], b[..j]) && Count(ops + [DelOp(a[i])], Ctx) == Count(ops, Ctx)
    ensures j < |b| ==>
              Edits(ops + [AddOp(b[j])], a[..i], b[..j + 1]) && Count(ops + [AddOp(b[j])], Ctx) == Count(ops, Ctx)
  {
    assert i < |a| ==> a[..i + 1] == a[..i] + [a[i]];
    assert j < |b| ==> b[..j + 1] == b[..j] + [b[j]];
    assert forall op :: (ops + [op])[..|ops|] == ops;
    assert Lefts(ops) + [] == Lefts(ops) && Rights(ops) + [] == Rights(ops);
  }

  /** The entries of row `i` from column `j` on have the values of the recurrence. */
  ghost predicate RowFilled(dp: array2<nat>, a: seq<string>, b: seq<string>, i: nat, j: nat)
    reads dp
    requires i <= |a| && dp.Length0 == |a| + 1 && dp.Length1 == |b| + 1
  {
    forall y | j <= y <= |b| :: dp[i, y] == Lcs(a[i..], b[y..])
  }

  ghost predicate Filled(dp: array2<nat>, a: seq<string>, b: seq<string>)
    reads dp
  {
    && dp.Length0 == |a| + 1 && dp.Length1 == |b| + 1
    && forall i | 0 <= i <= |a| :: RowFilled(dp, a, b, i, 0)
  }

  /** The table, filled from the bottom right. */
  method Table(a: seq<string>, b: seq<string>) returns (dp: array2<nat>)
    ensures Filled(dp, a, b)
  {
    var n, m := |a|, |b|;
    dp := new nat[n + 1, m + 1]((_, _) => 0);
    var i := n;
    while i > 0
      invariant 0 <= i <= n
      invariant forall x | i <= x <= n :: RowFilled(dp, a, b, x, 0)
      invariant forall x | 0 <= x < i :: dp[x, m] == 0
    {
      i := i - 1;
      var j := m;
      while j > 0
        invariant 0 <= j <= m
        invariant forall x | i < x <= n :: RowFilled(dp, a, b, x, 0)
        invariant RowFilled(dp, a, b, i, j)
        invariant forall x | 0 <= x < i :: dp[x, m] == 0
      {
        j := j - 1;
        LcsStep(a, b, i, j);
        assert RowFilled(dp, a, b, i + 1, 0);
        label Before:
        dp[i, j] := if a[i] == b[j] then dp[i + 1, j + 1] + 1 else Max(dp[i + 1, j], dp[i, j + 1]);
        forall x | i < x <= n ensures RowFilled(dp, a, b, x, 0) {
          assert old@Before(RowFilled(dp, a, b, x, 0));
        }
      }
    }
  }

  /** The row to write next over the texts that remain: the common line where both start with it, a
      deletion exactly where deleting loses no context, and an addition only where it would. */
  ghost predicate Chosen(op: Op, a: seq<string>, b: seq<string>)
  {
    && (op.t == Ctx <==> a != [] && b != [] && a[0] == b[0])
    && (op.t == Del <==> a != [] && op.t != Ctx && Lcs(a[1..], b) == Lcs(a, b))
  }

  /** Every row is the one to write next after those before it. */
  ghost predicate DeletesFirst(ops: seq<Op>, a: seq<string>, b: seq<string>)
  {
    forall k | 0 <= k < |ops| ::
      var i, j := |Lefts(ops[..k])|, |Rights(ops[..k])|;
      i <= |a| && j <= |b| && Chosen(ops[k], a[i..], b[j..])
  }

  lemma {:induction false} DeletesFirstMore(ops: seq<Op>, op: Op, a: seq<string>, b: seq<string>)
    requires DeletesFirst(ops, a, b) && |Lefts(ops)| <= |a| && |Rights(ops)| <= |b|
    requires Chosen(op, a[|Lefts(ops)|..], b[|Rights(ops)|..])
    ensures DeletesFirst(ops + [op], a, b)
  {
    hide Chosen;
    var more := ops + [op];
    assert more[..|ops|] == ops;
    forall k | 0 <= k < |more|
      ensures |Lefts(more[..k])| <= |a| && |Rights(more[..k])| <= |b|
      ensures Chosen(more[k], a[|Lefts(more[..k])|..], b[|Rights(more[..k])|..])
    {
      assert k < |ops| ==> more[..k] == ops[..k] && more[k] == ops[k];
    }
  }

  /** The choice of the walk, with both texts left. */
  lemma ChoiceIsChosen(a: seq<string>, b: seq<string>, i: nat, j: nat)
    requires i < |a| && j < |b|
    ensures a[i] == b[j] ==> Chosen(CtxOp(a[i]), a[i..], b[j..])
    ensures a[i] != b[j] && Lcs(a[i + 1..], b[j..]) >= Lcs(a[i..], b[j + 1..]) ==> Chosen(DelOp(a[i]), a[i..], b[j..])
    ensures a[i] != b[j] && Lcs(a[i + 1..], b[j..]) < Lcs(a[i..], b[j + 1..]) ==> Chosen(AddOp(b[j]), a[i..], b[j..])
  {
    LcsStep(a, b, i, j);
    assert a[i..][1..] == a[i + 1..];
  }

  /** And with one text left. */
  lemma LastChoiceIsChosen(a: seq<string>, b: seq<string>, line: string)
    ensures a != [] && b == [] ==> Chosen(DelOp(line), a, b)
    ensures a == [] && b != [] ==> Chosen(AddOp(line), a, b)
  {
  }

  lemma {:induction false} EditsSpell(ops: seq<Op>, aText: string, bText: string)
    requires Edits(ops, SplitOn(aText, '\n'), SplitOn(bText, '\n'))
    ensures JoinWith(Lefts(ops), '\n') == aText && JoinWith(Rights(ops), '\n') == bText
  {
    JoinSplit(aText, '\n');
    JoinSplit(bText, '\n');
  }

  /** The walk over the lines of two texts. */
  method Diff(aText: string, bText: string) returns (ops: seq<Op>)
    ensures var a, b := SplitOn(aText, '\n'), SplitOn(bText, '\n');
            Edits(ops, a, b) && Count(ops, Ctx) == Lcs(a, b) && DeletesFirst(ops, a, b)
    ensures JoinWith(Lefts(ops), '\n') == aText && JoinWith(Rights(ops), '\n') == bText
  {
    var a, b := SplitOn(aText, '\n'), SplitOn(bText, '\n');
    ops := Walk(a, b);
    EditsSpell(ops, aText, bText);
  }

  /** Walks the table from the top left, deleting before adding where both are optimal. */
  method Walk(a: seq<string>, b: seq<string>) returns (ops: seq<Op>)
    ensures Edits(ops, a, b) && Count(ops, Ctx) == Lcs(a, b)
    ensures DeletesFirst(ops, a, b)
  {
    hide Lefts, Rights, Count, Script, Lcs, Chosen, DeletesFirst;
    var n, m := |a|, |b|;
    var dp := Table(a, b);
    ops := [];
    var i, j := 0, 0;
    assert a[0..] == a && b[0..] == b;
    EmptyScript(a, b);
    while i < n && j < m
      invariant 0 <= i <= n && 0 <= j <= m
      invariant Filled(dp, a, b) && Edits(ops, a[..i], b[..j])
      invariant Count(ops, Ctx) + Lcs(a[i..], b[j..]) == Lcs(a, b)
      invariant DeletesFirst(ops, a, b)
      decreases n - i + m - j
    {
      LcsChoice(a, b, i, j);
      Grow(ops, a, b, i, j);
      assert RowFilled(dp, a, b, i + 1, 0) && RowFilled(dp, a, b, i, 0);
      assert dp[i + 1, j] == Lcs(a[i + 1..], b[j..]) && dp[i, j + 1] == Lcs(a[i..], b[j + 1..]);
      assert |a[..i]| == i && |b[..j]| == j;
      ChoiceIsChosen(a, b, i, j);
      if a[i] == b[j] {
        DeletesFirstMore(ops, CtxOp(a[i]), a, b);
        ops := ops + [CtxOp(a[i])];
        i, j := i + 1, j + 1;
      } else if dp[i + 1, j] >= dp[i, j + 1] {
        DeletesFirstMore(ops, DelOp(a[i]), a, b);
        ops := ops + [DelOp(a[i])];
        i := i + 1;
      } else {
        DeletesFirstMore(ops, AddOp(b[j]), a, b);
        ops := ops + [AddOp(b[j])];
        j := j + 1;
      }
    }
    LcsOfEmpty(a[i..], b[j..]);
    while i < n
      invariant 0 <= i <= n && 0 <= j <= m && (i == n || j == m)
      invariant Edits(ops, a[..i], b[..j]) && Count(ops, Ctx) == Lcs(a, b) && DeletesFirst(ops, a, b)
    {
      Grow(ops, a, b, i, j);
      assert |a[..i]| == i && |b[..j]| == j;
      LastChoiceIsChosen(a[i..], b[j..], a[i]);
      DeletesFirstMore(ops, DelOp(a[i]), a, b);
      ops := ops + [DelOp(a[i])];
      i := i + 1;
    }
    while j < m
      invariant 0 <= j <= m
      invariant Edits(ops, a[..n], b[..j]) && Count(ops, Ctx) == Lcs(a, b) && DeletesFirst(ops, a, b)
    {
      Grow(ops, a, b, n, j);
      assert |a[..n]| == n && |b[..j]| == j;
      LastChoiceIsChosen(a[n..], b[j..], b[j]);
      DeletesFirstMore(ops, AddOp(b[j]), a, b);
      ops := ops + [AddOp(b[j])];
      j := j + 1;
    }
    assert a[..n] == a && b[..m] == b;
  }

  lemma EmptyScript(a: seq<string>, b: seq<string>)
    ensures Edits([], a[..0], b[..0]) && Count([], Ctx) == 0 && DeletesFirst([], a, b)
  {
  }

  lemma {:induction false} LcsOfEmpty(a: seq<string>, b: seq<string>)
    ensures a == [] || b == [] ==> Lcs(a, b) == 0
  {
  }
}
