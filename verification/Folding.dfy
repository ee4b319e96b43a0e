/** Line numbers of a diff, folding of long unchanged runs, and expanding the folds again. */
module Folding {
  import opened Documents
  import opened LineDiff
  import opened Texts

  // ----- numbering -----

  /** How many of the first `k` rows show a left line, and a right line. */
  function LeftsBefore(ops: seq<Op>, k: nat): nat
    requires k <= |ops|
  {
    Count(ops[..k], Ctx) + Count(ops[..k], Del)
  }

  function RightsBefore(ops: seq<Op>, k: nat): nat
    requires k <= |ops|
  {
    Count(ops[..k], Ctx) + Count(ops[..k], Add)
  }

  function NumberedRow(ops: seq<Op>, k: nat): Op
    requires k < |ops|
  {
    ops[k].(ln := if ops[k].t == Add then None else Some(LeftsBefore(ops, k) + 1),
            rn := if ops[k].t == Del then None else Some(RightsBefore(ops, k) + 1))
  }

  function Numbered(ops: seq<Op>): seq<Op>
  {
    seq(|ops|, k requires 0 <= k < |ops| => NumberedRow(ops, k))
  }

  lemma {:induction false} CountStep(ops: seq<Op>, k: nat, t: Kind)
    requires k < |ops|
    ensures Count(ops[..k + 1], t) == Count(ops[..k], t) + (if ops[k].t == t then 1 else 0)
  {
    assert ops[..k + 1][..k] == ops[..k];
  }

  /** Writes the line numbers into the rows. */
  method NumberOps(ops: array<Op>)
    modifies ops
    ensures ops[..] == Numbered(old(ops[..]))
  {
    var ln, rn := 0, 0;
    ghost var was := ops[..];
    for k := 0 to ops.Length
      invariant ln == LeftsBefore(was, k) && rn == RightsBefore(was, k)
      invariant forall x | 0 <= x < k :: ops[x] == NumberedRow(was, x)
      invariant forall x | k <= x < ops.Length :: ops[x] == was[x]
    {
      CountStep(was, k, Ctx);
      CountStep(was, k, Del);
      CountStep(was, k, Add);
      if ops[k].t == Ctx {
        ln, rn := ln + 1, rn + 1;
        ops[k] := ops[k].(ln := Some(ln), rn := Some(rn));
      } else if ops[k].t == Del {
        ln := ln + 1;
        ops[k] := ops[k].(ln := Some(ln), rn := None);
      } else {
        rn := rn + 1;
        ops[k] := ops[k].(ln := None, rn := Some(rn));
      }
    }
  }

  /** The numbers shown on the left, and on the right, from top to bottom. */
  function LeftNumbers(ops: seq<Op>): seq<nat>
  {
    if ops == [] then []
    else LeftNumbers(ops[..|ops| - 1]) + (if ops[|ops| - 1].ln.Some? then [ops[|ops| - 1].ln.value] else [])
  }

  function RightNumbers(ops: seq<Op>): seq<nat>
  {
    if ops == [] then []
    else RightNumbers(ops[..|ops| - 1]) + (if ops[|ops| - 1].rn.Some? then [ops[|ops| - 1].rn.value] else [])
  }

  function UpTo(n: nat): seq<nat>
  {
    seq(n, i => i + 1)
  }

  lemma NumberedPrefix(ops: seq<Op>)
    requires ops != []
    ensures Numbered(ops)[..|ops| - 1] == Numbered(ops[..|ops| - 1])
  {
    var front := ops[..|ops| - 1];
    forall k | 0 <= k < |front| ensures NumberedRow(ops, k) == NumberedRow(front, k) {
      assert front[..k] == ops[..k];
    }
  }

  lemma LastNumber(ops: seq<Op>)
    requires Script(ops) && ops != []
    ensures var n := |ops| - 1;
            && Numbered(ops)[n].ln == (if ops[n].l.Some? then Some(|Lefts(ops[..n])| + 1) else None)
            && Numbered(ops)[n].rn == (if ops[n].r.Some? then Some(|Rights(ops[..n])| + 1) else None)
  {
    CommonsAreCommon(ops[..|ops| - 1]);
    assert Row(ops[|ops| - 1]);
  }

  lemma UpToStep(n: nat)
    ensures UpTo(n + 1) == UpTo(n) + [n + 1]
  {
  }

  /** The left numbers are exactly 1..n and the right numbers exactly 1..m, in order. */
  lemma {:induction false} NumbersAreComplete(ops: seq<Op>)
    requires Script(ops)
    ensures LeftNumbers(Numbered(ops)) == UpTo(|Lefts(ops)|)
    ensures RightNumbers(Numbered(ops)) == UpTo(|Rights(ops)|)
  {
    hide Numbered, Script, UpTo;
    if ops == [] {
      NothingNumbered();
    } else {
      var n := |ops| - 1;
      assert |Numbered(ops)| == |ops| && Script(ops[..n]) by {
        NumberedLength(ops);
      }
      NumberedPrefix(ops);
      NumbersAreComplete(ops[..n]);
      LastNumber(ops);
      UpToStep(|Lefts(ops[..n])|);
      UpToStep(|Rights(ops[..n])|);
    }
  }

  lemma NothingNumbered()
    ensures Numbered([]) == [] && UpTo(0) == []
  {
  }

  lemma NumberedLength(ops: seq<Op>)
    requires Script(ops)
    ensures |Numbered(ops)| == |ops| && (ops != [] ==> Script(ops[..|ops| - 1]))
  {
  }

  /** A row numbered x shows line x of its side. */
  lemma {:induction false} NumbersNameLines(ops: seq<Op>, k: nat)
    requires Script(ops) && k < |ops|
    ensures var row := Numbered(ops)[k];
            && (row.ln.Some? ==> row.ln.value <= |Lefts(ops)| && row.l == Some(Lefts(ops)[row.ln.value - 1]))
            && (row.rn.Some? ==> row.rn.value <= |Rights(ops)| && row.r == Some(Rights(ops)[row.rn.value - 1]))
  {
    var n := |ops| - 1;
    NumberedPrefix(ops);
    CommonsAreCommon(ops[..n]);
    assert Row(ops[n]);
    if k < n {
      NumbersNameLines(ops[..n], k);
      assert Numbered(ops)[k] == Numbered(ops[..n])[k];
    }
  }

  // ----- folding -----

  const FOLD_PAD := 3
  const FOLD_STEP := 10

  /** What the page shows: a row, or a bar that hides some. */
  datatype Item = Line(op: Op) | Fold(hidden: seq<Op>)

  function Content(item: Item): seq<Op>
  {
    match item
    case Line(op) => [op]
    case Fold(hidden) => hidden
  }

  function Flatten(items: seq<Item>): seq<Op>
  {
    if items == [] then [] else Content(items[0]) + Flatten(items[1..])
  }

  /** For every row of the flattened page, whether it is hidden. */
  function Marks(items: seq<Item>): seq<bool>
  {
    if items == [] then []
    else seq(|Content(items[0])|, _ => items[0].Fold?) + Marks(items[1..])
  }

  function HiddenCount(items: seq<Item>): nat
  {
    if items == [] then 0 else (if items[0].Fold? then |items[0].hidden| else 0) + HiddenCount(items[1..])
  }

  predicate NoEmptyFold(items: seq<Item>)
  {
    forall x | 0 <= x < |items| :: items[x].Fold? ==> items[x].hidden != []
  }

  lemma {:induction false} FlattenConcat(xs: seq<Item>, ys: seq<Item>)
    ensures Flatten(xs + ys) == Flatten(xs) + Flatten(ys)
  {
    if xs == [] {
      assert xs + ys == ys;
    } else {
      FlattenConcat(xs[1..], ys);
      assert (xs + ys)[1..] == xs[1..] + ys;
      Assoc(Content(xs[0]), Flatten(xs[1..]), Flatten(ys));
    }
  }

  lemma {:induction false} MarksConcat(xs: seq<Item>, ys: seq<Item>)
    ensures Marks(xs + ys) == Marks(xs) + Marks(ys)
  {
    if xs == [] {
      assert xs + ys == ys;
    } else {
      MarksConcat(xs[1..], ys);
      assert (xs + ys)[1..] == xs[1..] + ys;
      Assoc(seq(|Content(xs[0])|, _ => xs[0].Fold?), Marks(xs[1..]), Marks(ys));
    }
  }

  lemma {:induction false} HiddenConcat(xs: seq<Item>, ys: seq<Item>)
    ensures HiddenCount(xs + ys) == HiddenCount(xs) + HiddenCount(ys)
  {
    if xs == [] {
      assert xs + ys == ys;
    } else {
      HiddenConcat(xs[1..], ys);
      assert (xs + ys)[1..] == xs[1..] + ys;
    }
  }

  /** One more item on the page. */
  lemma {:induction false} AppendItem(items: seq<Item>, item: Item)
    ensures Flatten(items + [item]) == Flatten(items) + Content(item)
    ensures Marks(items + [item]) == Marks(items) + seq(|Content(item)|, _ => item.Fold?)
  {
    FlattenConcat(items, [item]);
    MarksConcat(items, [item]);
    assert Flatten([item]) == Content(item) + [] == Content(item);
    assert Marks([item]) == seq(|Content(item)|, _ => item.Fold?) + [] == seq(|Content(item)|, _ => item.Fold?);
  }

  /** A change among the first `n` rows lies at most FOLD_PAD rows away. */
  ghost predicate NearAmong(ops: seq<Op>, k: int, n: nat)
    requires n <= |ops|
  {
    exists c :: 0 <= c < n && c - FOLD_PAD <= k <= c + FOLD_PAD && ops[c].t != Ctx
  }

  ghost predicate Near(ops: seq<Op>, k: int)
  {
    NearAmong(ops, k, |ops|)
  }

  /** No fold follows a fold. */
  ghost predicate Maximal(items: seq<Item>)
  {
    forall x | 0 < x < |items| :: !(items[x - 1].Fold? && items[x].Fold?)
  }

  method Keep(ops: seq<Op>) returns (keep: array<bool>)
    ensures fresh(keep) && keep.Length == |ops|
    ensures forall x | 0 <= x < |ops| :: keep[x] <==> Near(ops, x)
  {
    keep := new bool[|ops|](_ => false);
    for k := 0 to |ops|
      invariant forall x | 0 <= x < |ops| :: keep[x] <==> NearAmong(ops, x, k)
    {
      if ops[k].t != Ctx {
        for d := -FOLD_PAD to FOLD_PAD + 1
          invariant forall x | 0 <= x < |ops| :: keep[x] <==> (NearAmong(ops, x, k) || k - FOLD_PAD <= x < k + d)
        {
          var idx := k + d;
          if 0 <= idx < |ops| {
            keep[idx] := true;
          }
        }
      }
      forall x | 0 <= x < |ops|
        ensures NearAmong(ops, x, k + 1) <==> (NearAmong(ops, x, k) || (ops[k].t != Ctx && k - FOLD_PAD <= x <= k + FOLD_PAD))
      {
      }
    }
  }

  /** The next rows, all kept or all hidden, go on the page. */
  lemma {:induction false} AppendChunk(out: seq<Item>, item: Item, ops: seq<Op>, marks: seq<bool>, start: nat, end: nat)
    requires start <= end <= |ops| == |marks|
    requires Flatten(out) == ops[..start] && Marks(out) == marks[..start]
    requires Content(item) == ops[start..end] && forall x | start <= x < end :: marks[x] == item.Fold?
    ensures Flatten(out + [item]) == ops[..end] && Marks(out + [item]) == marks[..end]
  {
    hide Flatten, Marks;
    AppendItem(out, item);
    assert ops[..end] == ops[..start] + ops[start..end];
    assert seq(|Content(item)|, _ => item.Fold?) == marks[start..end];
    assert marks[..end] == marks[..start] + marks[start..end];
  }

  lemma EmptyPage()
    ensures Flatten([]) == [] && Marks([]) == []
  {
  }

  /** Folding loses nothing, hides exactly the rows more than FOLD_PAD away from every change,
      and makes each fold as long as it can be. */
  method FoldContext(ops: seq<Op>) returns (out: seq<Item>)
    ensures Flatten(out) == ops
    ensures |Marks(out)| == |ops| && forall k | 0 <= k < |ops| :: Marks(out)[k] <==> !Near(ops, k)
    ensures NoEmptyFold(out) && Maximal(out)
  {
    hide Flatten, Marks, NearAmong;
    var keep := Keep(ops);
    ghost var marks := seq(|ops|, k => !Near(ops, k));
    out := [];
    EmptyPage();
    var i := 0;
    while i < |ops|
      invariant 0 <= i <= |ops|
      invariant forall x | 0 <= x < |ops| :: keep[x] <==> Near(ops, x)
      invariant Flatten(out) == ops[..i] && Marks(out) == marks[..i]
      invariant NoEmptyFold(out) && Maximal(out)
      invariant out != [] && out[|out| - 1].Fold? ==> i == |ops| || keep[i]
    {
      ghost var start := i;
      var item := Line(ops[i]);
      if keep[i] {
        i := i + 1;
      } else {
        var j := i;
        while j < |ops| && !keep[j]
          invariant i <= j <= |ops| && forall x | i <= x < j :: !keep[x]
        {
          j := j + 1;
        }
        item := Fold(ops[i..j]);
        i := j;
      }
      AppendChunk(out, item, ops, marks, start, i);
      out := out + [item];
    }
    assert ops[..i] == ops && marks[..i] == marks;
  }

  // ----- expanding -----

  datatype Direction = Up | Down | All

  function Lines(ops: seq<Op>): seq<Item>
  {
    seq(|ops|, i requires 0 <= i < |ops| => Line(ops[i]))
  }

  /** Whether an expansion shows everything, or FOLD_STEP rows of one end. */
  predicate ShowsAll(hidden: seq<Op>, dir: Direction)
  {
    dir == All || |hidden| <= FOLD_STEP
  }

  function Expanded(hidden: seq<Op>, dir: Direction): seq<Item>
  {
    if ShowsAll(hidden, dir) then Lines(hidden)
    else if dir == Up then Lines(hidden[..FOLD_STEP]) + [Fold(hidden[FOLD_STEP..])]
    else [Fold(hidden[..|hidden| - FOLD_STEP])] + Lines(hidden[|hidden| - FOLD_STEP..])
  }

  function ExpandAt(items: seq<Item>, at: nat, dir: Direction): seq<Item>
  {
    if at < |items| && items[at].Fold? then items[..at] + Expanded(items[at].hidden, dir) + items[at + 1..] else items
  }

  lemma {:induction false} LinesFlatten(ops: seq<Op>)
    ensures Flatten(Lines(ops)) == ops && HiddenCount(Lines(ops)) == 0
  {
    if ops != [] {
      LinesFlatten(ops[1..]);
      assert Lines(ops)[1..] == Lines(ops[1..]);
      assert ops == [ops[0]] + ops[1..];
    }
  }

  /** Some rows shown beside a fold of the others. */
  lemma HalfShown(front: seq<Op>, back: seq<Op>)
    ensures Flatten(Lines(front) + [Fold(back)]) == front + back == Flatten([Fold(front)] + Lines(back))
    ensures HiddenCount(Lines(front) + [Fold(back)]) == |back| && HiddenCount([Fold(front)] + Lines(back)) == |front|
  {
    LinesFlatten(front);
    LinesFlatten(back);
    FlattenConcat(Lines(front), [Fold(back)]);
    FlattenConcat([Fold(front)], Lines(back));
    HiddenConcat(Lines(front), [Fold(back)]);
    HiddenConcat([Fold(front)], Lines(back));
    assert Flatten([Fold(back)]) == back + [] == back && Flatten([Fold(front)]) == front + [] == front;
    assert HiddenCount([Fold(back)]) == |back| && HiddenCount([Fold(front)]) == |front|;
  }

  lemma ExpandedKeeps(hidden: seq<Op>, dir: Direction)
    requires hidden != []
    ensures Flatten(Expanded(hidden, dir)) == hidden
    ensures HiddenCount(Expanded(hidden, dir)) < |hidden|
    ensures NoEmptyFold(Expanded(hidden, dir))
  {
    hide Flatten, HiddenCount;
    if ShowsAll(hidden, dir) {
      LinesFlatten(hidden);
    } else {
      var cut := if dir == Up then FOLD_STEP else |hidden| - FOLD_STEP;
      HalfShown(hidden[..cut], hidden[cut..]);
      assert hidden == hidden[..cut] + hidden[cut..];
    }
  }

  /** What replaces one item decides what the page shows. */
  lemma {:induction false} ReplaceItem(items: seq<Item>, at: nat, other: seq<Item>)
    requires at < |items|
    ensures Flatten(items[..at] + other + items[at + 1..]) == Flatten(items[..at]) + Flatten(other) + Flatten(items[at + 1..])
    ensures HiddenCount(items[..at] + other + items[at + 1..]) ==
            HiddenCount(items[..at]) + HiddenCount(other) + HiddenCount(items[at + 1..])
  {
    hide Flatten, HiddenCount;
    FlattenConcat(items[..at], other);
    FlattenConcat(items[..at] + other, items[at + 1..]);
    HiddenConcat(items[..at], other);
    HiddenConcat(items[..at] + other, items[at + 1..]);
  }

  /** Expanding an inner fold keeps every row in its place and hides strictly less. */
  lemma {:induction false} ExpandKeepsOrder(items: seq<Item>, at: nat, dir: Direction)
    requires NoEmptyFold(items) && at < |items| && items[at].Fold?
    ensures Flatten(ExpandAt(items, at, dir)) == Flatten(items)
    ensures HiddenCount(ExpandAt(items, at, dir)) < HiddenCount(items)
    ensures NoEmptyFold(ExpandAt(items, at, dir))
  {
    hide Flatten, HiddenCount, Expanded;
    var hidden := items[at].hidden;
    ExpandedKeeps(hidden, dir);
    ReplaceItem(items, at, Expanded(hidden, dir));
    ReplaceItem(items, at, [items[at]]);
    assert items == items[..at] + [items[at]] + items[at + 1..];
    OneFold(hidden);
  }

  lemma OneFold(hidden: seq<Op>)
    ensures Flatten([Fold(hidden)]) == hidden && HiddenCount([Fold(hidden)]) == |hidden|
  {
    assert hidden + [] == hidden;
  }

  datatype Click = Click(at: nat, dir: Direction)

  function ClickAll(items: seq<Item>, clicks: seq<Click>): seq<Item>
    decreases |clicks|
  {
    if clicks == [] then items else ClickAll(ExpandAt(items, clicks[0].at, clicks[0].dir), clicks[1..])
  }

  /** Every click hits a fold. */
  ghost predicate AllHit(items: seq<Item>, clicks: seq<Click>)
    decreases |clicks|
  {
    clicks == [] ||
    (clicks[0].at < |items| && items[clicks[0].at].Fold? &&
     AllHit(ExpandAt(items, clicks[0].at, clicks[0].dir), clicks[1..]))
  }

  /** Any sequence of expansions of inner folds keeps the rows in order, and no more of them
      are possible than there were hidden rows. */
  lemma {:induction false} ClicksKeepOrderAndEnd(items: seq<Item>, clicks: seq<Click>)
    requires NoEmptyFold(items) && AllHit(items, clicks)
    ensures Flatten(ClickAll(items, clicks)) == Flatten(items)
    ensures HiddenCount(ClickAll(items, clicks)) + |clicks| <= HiddenCount(items)
    decreases |clicks|
  {
    if clicks != [] {
      ExpandKeepsOrder(items, clicks[0].at, clicks[0].dir);
      ClicksKeepOrderAndEnd(ExpandAt(items, clicks[0].at, clicks[0].dir), clicks[1..]);
    }
  }

  // ----- the leading fold -----

  /** A diff that opens on unchanged rows keeps its first fold in the header, above the body. */
  datatype Page = Page(lead: seq<Op>, body: seq<Item>)

  function PageRows(page: Page): seq<Op>
  {
    page.lead + Flatten(page.body)
  }

  /** Revealed rows go to the top of the body; what stays hidden stays in the header. */
  function ExpandLead(page: Page, dir: Direction): Page
  {
    var hidden := page.lead;
    if ShowsAll(hidden, dir) then Page([], Lines(hidden) + page.body)
    else if dir == Up then Page(hidden[FOLD_STEP..], Lines(hidden[..FOLD_STEP]) + page.body)
    else Page(hidden[..|hidden| - FOLD_STEP], Lines(hidden[|hidden| - FOLD_STEP..]) + page.body)
  }

  /** Rows that show a left line have different left numbers. */
  lemma LeftNumbersDiffer(ops: seq<Op>, i: nat, j: nat)
    requires i < j < |ops| && ops[i].t != Add && ops[j].t != Add
    ensures Numbered(ops)[i].ln != Numbered(ops)[j].ln
  {
    CountStep(ops, i, Ctx);
    CountStep(ops, i, Del);
    CountGrows(ops, i + 1, j, Ctx);
    CountGrows(ops, i + 1, j, Del);
  }

  lemma {:induction false} CountGrows(ops: seq<Op>, i: nat, j: nat, t: Kind)
    requires i <= j <= |ops|
    ensures Count(ops[..i], t) <= Count(ops[..j], t)
    decreases j
  {
    if i < j {
      CountStep(ops, j - 1, t);
      CountGrows(ops, i, j - 1, t);
    }
  }

  /** Expanding the leading fold keeps the rows in order exactly when it is not a partial
      expansion upward. */
  lemma LeadKeepsOrderIff(page: Page, dir: Direction)
    requires forall i, j | 0 <= i < j < |page.lead| :: page.lead[i].ln != page.lead[j].ln
    ensures PageRows(ExpandLead(page, dir)) == PageRows(page) <==> !(dir == Up && |page.lead| > FOLD_STEP)
  {
    hide Flatten, HiddenCount;
    var hidden := page.lead;
    var cut := if dir == Up then FOLD_STEP else |hidden| - FOLD_STEP;
    if ShowsAll(hidden, dir) {
      LinesFlatten(hidden);
      FlattenConcat(Lines(hidden), page.body);
    } else {
      var front, back := hidden[..cut], hidden[cut..];
      LinesFlatten(front);
      LinesFlatten(back);
      FlattenConcat(Lines(front), page.body);
      FlattenConcat(Lines(back), page.body);
      assert hidden == front + back;
      if dir == Up {
        assert PageRows(ExpandLead(page, dir))[0] == hidden[FOLD_STEP] && PageRows(page)[0] == hidden[0];
        assert hidden[0].ln != hidden[FOLD_STEP].ln;
      } else {
        assert front + (back + Flatten(page.body)) == hidden + Flatten(page.body);
      }
    }
  }

  // ----- the page of a diff -----

  /** The page keeps a first fold in the header; everything else is the body. */
  function PageOf(items: seq<Item>): Page
  {
    if items != [] && items[0].Fold? then Page(items[0].hidden, items[1..]) else Page([], items)
  }

  /** The folded list of some rows, as `FoldContext` gives it. */
  ghost predicate FoldedFrom(items: seq<Item>, ops: seq<Op>)
  {
    && Flatten(items) == ops && NoEmptyFold(items) && Maximal(items)
    && |Marks(items)| == |ops| && forall k | 0 <= k < |ops| :: Marks(items)[k] <==> !Near(ops, k)
  }

  /** The first fold hides the first rows, and all of them are context rows. */
  lemma LeadIsContext(items: seq<Item>, ops: seq<Op>)
    requires FoldedFrom(items, ops)
    ensures var lead := PageOf(items).lead;
            |lead| <= |ops| && lead == ops[..|lead|] && forall k | 0 <= k < |lead| :: ops[k].t == Ctx
  {
    if items != [] && items[0].Fold? {
      var lead := items[0].hidden;
      assert Flatten(items) == lead + Flatten(items[1..]);
      assert Marks(items) == seq(|lead|, _ => true) + Marks(items[1..]);
      forall k | 0 <= k < |lead| ensures ops[k].t == Ctx {
        assert Marks(items)[k];
      }
    }
  }

  /** The page of a diff shows its numbered rows in order, and expanding its leading fold keeps them
      in order exactly when it is not a partial expansion upward. */
  lemma DiffPageKeepsOrderIff(ops: seq<Op>, items: seq<Item>, dir: Direction)
    requires FoldedFrom(items, Numbered(ops))
    ensures PageRows(PageOf(items)) == Numbered(ops)
    ensures PageRows(ExpandLead(PageOf(items), dir)) == Numbered(ops) <==>
              !(dir == Up && |PageOf(items).lead| > FOLD_STEP)
  {
    hide ExpandLead, FoldedFrom, Marks;
    var page, rows := PageOf(items), Numbered(ops);
    LeadIsContext(items, rows);
    PageShowsAll(items);
    assert Flatten(items) == rows by {
      FoldedIsFlat(items, rows);
    }
    forall i, j | 0 <= i < j < |page.lead| ensures page.lead[i].ln != page.lead[j].ln {
      assert rows[i].t == Ctx && rows[j].t == Ctx;
      LeftNumbersDiffer(ops, i, j);
    }
    LeadKeepsOrderIff(page, dir);
  }

  lemma {:induction false} FoldedIsFlat(items: seq<Item>, ops: seq<Op>)
    requires FoldedFrom(items, ops)
    ensures Flatten(items) == ops
  {
  }

  lemma {:induction false} PageShowsAll(items: seq<Item>)
    ensures PageRows(PageOf(items)) == Flatten(items)
  {
    assert [] + Flatten(items) == Flatten(items);
  }

  /** The rows of the diff of two texts, their folded list, and the page that shows it. */
  method SplitDiff(before: string, after: string) returns (ops: seq<Op>, items: seq<Item>, page: Page)
    ensures var a, b := SplitOn(before, '\n'), SplitOn(after, '\n');
            Edits(ops, a, b) && Count(ops, Ctx) == Lcs(a, b) && DeletesFirst(ops, a, b)
    ensures FoldedFrom(items, Numbered(ops)) && page == PageOf(items) && PageRows(page) == Numbered(ops)
    ensures forall dir :: PageRows(ExpandLead(page, dir)) == Numbered(ops) <==> !(dir == Up && |page.lead| > FOLD_STEP)
  {
    hide Edits, DeletesFirst, FoldedFrom, Marks, Numbered, PageRows, ExpandLead;
    ops := Diff(before, after);
    var rows := new Op[|ops|](i requires 0 <= i < |ops| => ops[i]);
    assert rows[..] == ops;
    NumberOps(rows);
    items := FoldContext(rows[..]);
    FoldedAsPromised(items, Numbered(ops));
    page := PageOf(items);
    forall dir ensures PageRows(page) == Numbered(ops)
      ensures PageRows(ExpandLead(page, dir)) == Numbered(ops) <==> !(dir == Up && |page.lead| > FOLD_STEP)
    {
      DiffPageKeepsOrderIff(ops, items, dir);
    }
    DiffPageKeepsOrderIff(ops, items, All);
  }

  lemma {:induction false} FoldedAsPromised(items: seq<Item>, ops: seq<Op>)
    requires Flatten(items) == ops && NoEmptyFold(items) && Maximal(items)
    requires |Marks(items)| == |ops| && forall k | 0 <= k < |ops| :: Marks(items)[k] <==> !Near(ops, k)
    ensures FoldedFrom(items, ops)
  {
  }

  /** Concrete input: a leading fold of eleven context rows, expanded upward once. */
  lemma PartlyUpExample(line: string, body: seq<Item>)
    ensures var page := Page(Numbered(seq(FOLD_STEP + 1, _ => CtxOp(line))), body);
            PageRows(ExpandLead(page, Up)) != PageRows(page)
  {
    var ops := seq(FOLD_STEP + 1, _ => CtxOp(line));
    var page := Page(Numbered(ops), body);
    forall i, j | 0 <= i < j < |page.lead| ensures page.lead[i].ln != page.lead[j].ln {
      LeftNumbersDiffer(ops, i, j);
    }
    LeadKeepsOrderIff(page, Up);
  }
}
