/**
 * The horizontal stack (`AGHStack`): a node whose children are laid out side by
 * side. The stack reports its own size from its children's sizes, gives every
 * child a concrete size from the ambient size it is rendered at, renders the
 * children in order and hands the results to the horizontal compositing call.
 *
 * A child (`any AGGraph`) is seen only through the size it reports and an
 * opaque content; rendering a child, compositing and the clear fill are
 * function parameters the model does not interpret.
 */
module HStack {
  import opened Wrappers
  import Values

  /** `AGResolution`: a reported size; an axis that is `None` is auto and follows the ambient size. */
  datatype Resolution = Resolution(width: Option<real>, height: Option<real>)

  /** A child node: the size it reports and what it draws. */
  datatype Graph<C> = Graph(resolution: Resolution, content: C)

  /** `Graphic.HStackAlignment`: where children sit vertically. */
  datatype Alignment = Top | Center | Bottom

  datatype Stack<C> = Stack(graphs: seq<Graph<C>>, alignment: Alignment)

  // ---------------------------------------------------------------- the stack's own size

  predicate AllWidthsFixed<C>(gs: seq<Graph<C>>) {
    forall i :: 0 <= i < |gs| ==> gs[i].resolution.width.Some?
  }

  predicate AllHeightsFixed<C>(gs: seq<Graph<C>>) {
    forall i :: 0 <= i < |gs| ==> gs[i].resolution.height.Some?
  }

  /** The sum of the children's fixed widths; an auto-width child adds nothing. */
  function FixedWidthSum<C>(gs: seq<Graph<C>>): real
  {
    if gs == [] then 0.0
    else FixedWidthSum(gs[..|gs| - 1]) + gs[|gs| - 1].resolution.width.GetOr(0.0)
  }

  /** The number of auto-width children. */
  function AutoCount<C>(gs: seq<Graph<C>>): (n: nat)
    ensures n <= |gs|
    ensures n == 0 <==> AllWidthsFixed(gs)
  {
    if gs == [] then 0
    else AutoCount(gs[..|gs| - 1]) + if gs[|gs| - 1].resolution.width.None? then 1 else 0
  }

  function Max(a: real, b: real): real {
    if a < b then b else a
  }

  /** The largest fixed height, counting up from 0 as the source's running maximum does. */
  function MaxHeight<C>(gs: seq<Graph<C>>): (h: real)
    ensures 0.0 <= h
    ensures forall i :: 0 <= i < |gs| && gs[i].resolution.height.Some? ==> gs[i].resolution.height.value <= h
    ensures h == 0.0 || exists i :: 0 <= i < |gs| && gs[i].resolution.height == Some(h)
  {
    if gs == [] then 0.0
    else Max(MaxHeight(gs[..|gs| - 1]), gs[|gs| - 1].resolution.height.GetOr(0.0))
  }

  /** The stack's width: the sum of its children's widths, or auto as soon as one child is auto. */
  function WidthOf<C>(gs: seq<Graph<C>>): Option<real> {
    if AllWidthsFixed(gs) then Some(FixedWidthSum(gs)) else None
  }

  /** The stack's height: the largest of its children's heights, or auto as soon as one child is auto. */
  function HeightOf<C>(gs: seq<Graph<C>>): Option<real> {
    if AllHeightsFixed(gs) then Some(MaxHeight(gs)) else None
  }

  function ResolutionOf<C>(gs: seq<Graph<C>>): Resolution {
    Resolution(WidthOf(gs), HeightOf(gs))
  }

  /** The width closure of `resolution`: sums the widths, giving up on the first auto child. */
  method TotalWidth<C>(graphs: seq<Graph<C>>) returns (width: Option<real>)
    ensures width == WidthOf(graphs)
  {
    var totalWidth := 0.0;
    for i := 0 to |graphs|
      invariant AllWidthsFixed(graphs[..i])
      invariant totalWidth == FixedWidthSum(graphs[..i])
    {
      assert graphs[..i + 1][..i] == graphs[..i];
      match graphs[i].resolution.width
      case Some(w) =>
        totalWidth := totalWidth + w;
      case None =>
        return None;
    }
    assert graphs[..|graphs|] == graphs;
    return Some(totalWidth);
  }

  /** The height closure of `resolution`: a running maximum, giving up on the first auto child. */
  method TotalHeight<C>(graphs: seq<Graph<C>>) returns (height: Option<real>)
    ensures height == HeightOf(graphs)
  {
    var totalHeight := 0.0;
    for i := 0 to |graphs|
      invariant AllHeightsFixed(graphs[..i])
      invariant totalHeight == MaxHeight(graphs[..i])
    {
      assert graphs[..i + 1][..i] == graphs[..i];
      match graphs[i].resolution.height
      case Some(h) =>
        totalHeight := Max(totalHeight, h);
      case None =>
        return None;
    }
    assert graphs[..|graphs|] == graphs;
    return Some(totalHeight);
  }

  /** `resolution`: the size the stack reports to its own parent. */
  method ComputeResolution<C>(stack: Stack<C>) returns (r: Resolution)
    ensures r == ResolutionOf(stack.graphs)
    ensures r.width.None? <==> exists i :: 0 <= i < |stack.graphs| && stack.graphs[i].resolution.width.None?
    ensures r.height.None? <==> exists i :: 0 <= i < |stack.graphs| && stack.graphs[i].resolution.height.None?
    ensures stack.graphs == [] ==> r == Resolution(Some(0.0), Some(0.0))
  {
    var width := TotalWidth(stack.graphs);
    var height := TotalHeight(stack.graphs);
    r := Resolution(width, height);
  }

  lemma {:induction false} FixedWidthSumConcat<C>(a: seq<Graph<C>>, b: seq<Graph<C>>)
    ensures FixedWidthSum(a + b) == FixedWidthSum(a) + FixedWidthSum(b)
    decreases |b|
  {
    if b == [] {
      assert a + b == a;
    } else {
      assert (a + b)[..|a + b| - 1] == a + b[..|b| - 1];
      FixedWidthSumConcat(a, b[..|b| - 1]);
    }
  }

  lemma {:induction false} MaxHeightConcat<C>(a: seq<Graph<C>>, b: seq<Graph<C>>)
    ensures MaxHeight(a + b) == Max(MaxHeight(a), MaxHeight(b))
    decreases |b|
  {
    if b == [] {
      assert a + b == a;
    } else {
      assert (a + b)[..|a + b| - 1] == a + b[..|b| - 1];
      MaxHeightConcat(a, b[..|b| - 1]);
    }
  }

  lemma AllWidthsFixedConcat<C>(a: seq<Graph<C>>, b: seq<Graph<C>>)
    ensures AllWidthsFixed(a + b) <==> AllWidthsFixed(a) && AllWidthsFixed(b)
  {
    if AllWidthsFixed(a + b) {
      forall i | 0 <= i < |a| ensures a[i].resolution.width.Some? {
        assert (a + b)[i] == a[i];
      }
      forall i | 0 <= i < |b| ensures b[i].resolution.width.Some? {
        assert (a + b)[|a| + i] == b[i];
      }
    }
  }

  lemma AllHeightsFixedConcat<C>(a: seq<Graph<C>>, b: seq<Graph<C>>)
    ensures AllHeightsFixed(a + b) <==> AllHeightsFixed(a) && AllHeightsFixed(b)
  {
    if AllHeightsFixed(a + b) {
      forall i | 0 <= i < |a| ensures a[i].resolution.height.Some? {
        assert (a + b)[i] == a[i];
      }
      forall i | 0 <= i < |b| ensures b[i].resolution.height.Some? {
        assert (a + b)[|a| + i] == b[i];
      }
    }
  }

  /** Everything the reported size is computed from: width sum, height maximum and whether each axis is fixed throughout. */
  function Totals<C>(gs: seq<Graph<C>>): (real, real, bool, bool) {
    (FixedWidthSum(gs), MaxHeight(gs), AllWidthsFixed(gs), AllHeightsFixed(gs))
  }

  /** The totals of two runs of children placed one after the other. */
  function Join(s: (real, real, bool, bool), t: (real, real, bool, bool)): (real, real, bool, bool) {
    (s.0 + t.0, Max(s.1, t.1), s.2 && t.2, s.3 && t.3)
  }

  lemma TotalsConcat<C>(a: seq<Graph<C>>, b: seq<Graph<C>>)
    ensures Totals(a + b) == Join(Totals(a), Totals(b))
  {
    FixedWidthSumConcat(a, b);
    MaxHeightConcat(a, b);
    AllWidthsFixedConcat(a, b);
    AllHeightsFixedConcat(a, b);
  }

  lemma TotalsConcat3<C>(p: seq<Graph<C>>, q: seq<Graph<C>>, r: seq<Graph<C>>)
    ensures Totals(p + q + r) == Join(Join(Totals(p), Totals(q)), Totals(r))
  {
    TotalsConcat(p, q);
    TotalsConcat(p + q, r);
  }

  /** Moving one child to the end leaves the totals as they are. */
  lemma TotalsMoveToEnd<C>(left: seq<Graph<C>>, x: Graph<C>, right: seq<Graph<C>>)
    ensures Totals(left + [x] + right) == Totals(left + right + [x])
  {
    TotalsConcat3(left, [x], right);
    TotalsConcat3(left, right, [x]);
  }

  lemma MultisetRemove<T>(front: seq<T>, x: T, left: seq<T>, right: seq<T>)
    requires multiset(front + [x]) == multiset(left + [x] + right)
    ensures multiset(front) == multiset(left + right)
  {
    assert multiset(left + [x] + right) == multiset(left) + multiset{x} + multiset(right);
    assert multiset(front + [x]) == multiset(front) + multiset{x};
    assert multiset(left + right) == multiset(left) + multiset(right);
    assert multiset(front) == multiset(front + [x]) - multiset{x};
    assert multiset(left + right) == multiset(left + [x] + right) - multiset{x};
  }

  /** The totals are the same for any reordering of the children. */
  lemma {:induction false} TotalsPermutation<C>(a: seq<Graph<C>>, b: seq<Graph<C>>)
    requires multiset(a) == multiset(b)
    ensures Totals(a) == Totals(b)
    decreases |a|
  {
    if a == [] {
      assert |b| == |multiset(b)| == 0;
    } else {
      var x := a[|a| - 1];
      var front := a[..|a| - 1];
      assert a == front + [x];
      assert x in multiset(b);
      var left, right := SplitAround(b, x);
      MultisetRemove(front, x, left, right);
      TotalsPermutation(front, left + right);
      TotalsMoveToEnd(left, x, right);
      TotalsAppend(front, left + right, x);
    }
  }

  /** Children with the same totals still have the same totals after one more child. */
  lemma TotalsAppend<C>(u: seq<Graph<C>>, v: seq<Graph<C>>, x: Graph<C>)
    requires Totals(u) == Totals(v)
    ensures Totals(u + [x]) == Totals(v + [x])
  {
    TotalsConcat(u, [x]);
    TotalsConcat(v, [x]);
  }

  /** A sequence holding `x` is split around one occurrence of it. */
  lemma SplitAround<T>(b: seq<T>, x: T) returns (left: seq<T>, right: seq<T>)
    requires x in multiset(b)
    ensures b == left + [x] + right
  {
    var i :| 0 <= i < |b| && b[i] == x;
    left, right := b[..i], b[i + 1..];
  }

  /** The reported size does not depend on the order of the children. */
  lemma ResolutionOfPermutation<C>(a: seq<Graph<C>>, b: seq<Graph<C>>)
    requires multiset(a) == multiset(b)
    ensures ResolutionOf(a) == ResolutionOf(b)
  {
    TotalsPermutation(a, b);
  }

  // ---------------------------------------------------------------- the children's concrete sizes

  /** What every auto-width child gets: the ambient width left after the fixed widths, shared evenly. */
  function AutoShare<C>(gs: seq<Graph<C>>, ambient: Values.Size): real
    requires AutoCount(gs) > 0
  {
    (ambient.width - FixedWidthSum(gs)) / AutoCount(gs) as real
  }

  /** The concrete size child `index` is rendered at. */
  function ChildSize<C>(gs: seq<Graph<C>>, index: nat, ambient: Values.Size): Values.Size
    requires index < |gs|
  {
    var r := gs[index].resolution;
    Values.Size(
      match r.width
      case Some(w) => w
      case None => AutoShare(gs, ambient),
      r.height.GetOr(ambient.height))
  }

  /**
   * The size closure inside `render(at:)`: a fixed axis is kept, an auto height
   * takes the ambient height, and an auto width takes the ambient width less
   * every other child's fixed width, divided by the number of auto children.
   */
  method ChildResolution<C>(graphs: seq<Graph<C>>, index: nat, ambient: Values.Size) returns (size: Values.Size)
    requires index < |graphs|
    ensures size == ChildSize(graphs, index, ambient)
    ensures graphs[index].resolution.width.Some? ==> size.width == graphs[index].resolution.width.value
    ensures graphs[index].resolution.height.Some? ==> size.height == graphs[index].resolution.height.value
    ensures graphs[index].resolution.height.None? ==> size.height == ambient.height
    ensures graphs[index].resolution.width.None? ==>
      AutoCount(graphs) > 0 && size.width == (ambient.width - FixedWidthSum(graphs)) / AutoCount(graphs) as real
  {
    var graph := graphs[index];
    var width := graph.resolution.width.GetOr(ambient.width);
    var height := graph.resolution.height.GetOr(ambient.height);
    if graph.resolution.width.None? {
      var autoCount := 1;
      for otherIndex := 0 to |graphs|
        invariant width == ambient.width - FixedWidthSum(graphs[..otherIndex])
        invariant autoCount == 1 + AutoCount(graphs[..otherIndex]) - if index < otherIndex then 1 else 0
      {
        assert graphs[..otherIndex + 1][..otherIndex] == graphs[..otherIndex];
        if otherIndex != index {
          match graphs[otherIndex].resolution.width
          case Some(otherWidth) =>
            width := width - otherWidth;
          case None =>
            autoCount := autoCount + 1;
        }
      }
      assert graphs[..|graphs|] == graphs;
      width := width / autoCount as real;
    }
    size := Values.Size(width, height);
  }

  /** Every auto-width child is given the same width. */
  lemma AutoWidthsEqual<C>(gs: seq<Graph<C>>, i: nat, j: nat, ambient: Values.Size)
    requires i < |gs| && j < |gs|
    requires gs[i].resolution.width.None? && gs[j].resolution.width.None?
    ensures ChildSize(gs, i, ambient).width == ChildSize(gs, j, ambient).width
  {
  }

  /**
   * The share is never clamped: it is negative exactly when the fixed widths
   * exceed the ambient width, and zero exactly when they fill it.
   */
  lemma AutoShareUnclamped<C>(gs: seq<Graph<C>>, ambient: Values.Size)
    requires AutoCount(gs) > 0
    ensures AutoShare(gs, ambient) < 0.0 <==> FixedWidthSum(gs) > ambient.width
    ensures AutoShare(gs, ambient) == 0.0 <==> FixedWidthSum(gs) == ambient.width
  {
    var n := AutoCount(gs) as real;
    var d := ambient.width - FixedWidthSum(gs);
    assert AutoShare(gs, ambient) * n == d;
  }

  /** The sum of the widths given to the first `n` children. */
  function AssignedWidthSum<C>(gs: seq<Graph<C>>, n: nat, ambient: Values.Size): real
    requires n <= |gs|
  {
    if n == 0 then 0.0 else AssignedWidthSum(gs, n - 1, ambient) + ChildSize(gs, n - 1, ambient).width
  }

  /** `k` shares added up; kept apart from multiplication so the sums below stay linear. */
  function Shares(k: nat, share: real): real {
    if k == 0 then 0.0 else Shares(k - 1, share) + share
  }

  lemma {:induction false} SharesIsProduct(k: nat, share: real)
    ensures Shares(k, share) == k as real * share
  {
    if k > 0 {
      SharesIsProduct(k - 1, share);
      assert (k - 1) as real * share + share == k as real * share;
    }
  }

  lemma {:induction false} AssignedWidthSumPrefix<C>(gs: seq<Graph<C>>, n: nat, ambient: Values.Size)
    requires n <= |gs| && AutoCount(gs) > 0
    ensures AssignedWidthSum(gs, n, ambient) == FixedWidthSum(gs[..n]) + Shares(AutoCount(gs[..n]), AutoShare(gs, ambient))
  {
    if n == 0 {
      assert gs[..0] == [];
    } else {
      AssignedWidthSumPrefix(gs, n - 1, ambient);
      assert gs[..n][..n - 1] == gs[..n - 1];
    }
  }

  /** When at least one child is auto-width, the widths handed out add up to the ambient width. */
  lemma AssignedWidthsFillAmbient<C>(gs: seq<Graph<C>>, ambient: Values.Size)
    requires AutoCount(gs) > 0
    ensures AssignedWidthSum(gs, |gs|, ambient) == ambient.width
  {
    AssignedWidthSumPrefix(gs, |gs|, ambient);
    assert gs[..|gs|] == gs;
    AutoSharesFillRemainder(gs, ambient);
  }

  /** The auto children's shares together make up what the fixed widths leave of the ambient width. */
  lemma AutoSharesFillRemainder<C>(gs: seq<Graph<C>>, ambient: Values.Size)
    requires AutoCount(gs) > 0
    ensures Shares(AutoCount(gs), AutoShare(gs, ambient)) == ambient.width - FixedWidthSum(gs)
  {
    var share := AutoShare(gs, ambient);
    var n := AutoCount(gs);
    var x := ambient.width - FixedWidthSum(gs);
    assert share == x / n as real;
    SharesOfQuotient(n, x);
  }

  lemma SharesOfQuotient(n: nat, x: real)
    requires n > 0
    ensures Shares(n, x / n as real) == x
  {
    SharesIsProduct(n, x / n as real);
  }

  /** Fixed widths 100 and 50 around an auto child, at ambient width 300: the auto child gets 150. */
  lemma AutoBetweenFixed<C>(a: C, b: C, c: C, height: real)
    ensures var gs := [Graph(Resolution(Some(100.0), None), a), Graph(Resolution(None, None), b),
                       Graph(Resolution(Some(50.0), None), c)];
            ChildSize(gs, 1, Values.Size(300.0, height)) == Values.Size(150.0, height)
  {
    var gs := [Graph(Resolution(Some(100.0), None), a), Graph(Resolution(None, None), b),
               Graph(Resolution(Some(50.0), None), c)];
    assert gs[..1][..0] == [];
    assert gs[..2][..1] == gs[..1];
    assert gs[..3][..2] == gs[..2];
    assert gs[..3] == gs;
    assert FixedWidthSum(gs[..1]) == 100.0;
    assert FixedWidthSum(gs[..2]) == 100.0;
    assert FixedWidthSum(gs) == 150.0;
    assert AutoCount(gs[..1]) == 0;
    assert AutoCount(gs[..2]) == 1;
    assert AutoCount(gs) == 1;
  }

  // ---------------------------------------------------------------- rendering

  /** The graphics rendered for a trace of render calls, in the same order. */
  function RenderAll<C, G>(render: (Graph<C>, Values.Size) -> G, calls: seq<(Graph<C>, Values.Size)>): seq<G>
  {
    if calls == [] then []
    else RenderAll(render, calls[..|calls| - 1]) + [render(calls[|calls| - 1].0, calls[|calls| - 1].1)]
  }

  /**
   * `render(at:)`: an empty stack is a clear graphic at the ambient size and
   * renders nothing; otherwise every child is rendered once, in order, at its
   * concrete size, and those graphics are stacked horizontally.
   * `calls` is the trace of child render calls.
   */
  method Render<C, G>(stack: Stack<C>, ambient: Values.Size,
                      render: (Graph<C>, Values.Size) -> G,
                      hStacked: (seq<G>, Alignment) -> G,
                      clear: Values.Size -> G)
    returns (graphic: G, calls: seq<(Graph<C>, Values.Size)>)
    ensures stack.graphs == [] ==> graphic == clear(ambient) && calls == []
    ensures |calls| == |stack.graphs|
    ensures forall i :: 0 <= i < |calls| ==> calls[i] == (stack.graphs[i], ChildSize(stack.graphs, i, ambient))
    ensures stack.graphs != [] ==> graphic == hStacked(RenderAll(render, calls), stack.alignment)
  {
    if stack.graphs == [] {
      return clear(ambient), [];
    }
    var graphics: seq<G> := [];
    calls := [];
    for index := 0 to |stack.graphs|
      invariant |calls| == index
      invariant forall i :: 0 <= i < index ==> calls[i] == (stack.graphs[i], ChildSize(stack.graphs, i, ambient))
      invariant graphics == RenderAll(render, calls)
    {
      var graph := stack.graphs[index];
      var resolution := ChildResolution(stack.graphs, index, ambient);
      var g := render(graph, resolution);
      calls := calls + [(graph, resolution)];
      assert calls[..|calls| - 1] == calls[..index];
      graphics := graphics + [g];
    }
    graphic := hStacked(graphics, stack.alignment);
  }

  // ---------------------------------------------------------------- equality

  /** `==`: same reported size, same number of children, and children pairwise equal. */
  predicate SameStacks<C>(lhs: Stack<C>, rhs: Stack<C>, isEqual: (Graph<C>, Graph<C>) -> bool) {
    && ResolutionOf(lhs.graphs) == ResolutionOf(rhs.graphs)
    && |lhs.graphs| == |rhs.graphs|
    && forall i :: 0 <= i < |lhs.graphs| ==> isEqual(lhs.graphs[i], rhs.graphs[i])
  }

  /** `==` with its early returns. `isEqual` is a child's own `isEqual(to:)`. */
  method Equals<C>(lhs: Stack<C>, rhs: Stack<C>, isEqual: (Graph<C>, Graph<C>) -> bool) returns (eq: bool)
    ensures eq <==> SameStacks(lhs, rhs, isEqual)
  {
    var lhsResolution := ComputeResolution(lhs);
    var rhsResolution := ComputeResolution(rhs);
    if lhsResolution != rhsResolution {
      return false;
    }
    if |lhs.graphs| != |rhs.graphs| {
      return false;
    }
    for i := 0 to |lhs.graphs|
      invariant forall k :: 0 <= k < i ==> isEqual(lhs.graphs[k], rhs.graphs[k])
    {
      if !isEqual(lhs.graphs[i], rhs.graphs[i]) {
        return false;
      }
    }
    return true;
  }

  /** The alignment takes no part in equality: the same children under two alignments compare equal. */
  lemma SameStacksIgnoresAlignment<C>(gs: seq<Graph<C>>, a: Alignment, b: Alignment,
                                       isEqual: (Graph<C>, Graph<C>) -> bool)
    requires forall g :: isEqual(g, g)
    ensures SameStacks(Stack(gs, a), Stack(gs, b), isEqual)
  {
  }

  /** Stacks whose children differ in number are never equal. */
  lemma SameStacksNeedsSameCount<C>(lhs: Stack<C>, rhs: Stack<C>, isEqual: (Graph<C>, Graph<C>) -> bool)
    requires |lhs.graphs| != |rhs.graphs|
    ensures !SameStacks(lhs, rhs, isEqual)
  {
  }
}
