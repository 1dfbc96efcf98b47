/** What the node set of the square billiard satisfies. Every lemma is stated about a record
    `nodes` equal to `Reference(a, n)`, which is what `SquareBilliardNodes(a, n)` returns, so
    each one is a property of the discretizer's output. */
module NodeProperties {
  import opened Arith
  import opened Geometry
  import opened BoundaryData

  /** The sum of a sequence of reals, added from the front. */
  function Sum(xs: seq<real>): real {
    if |xs| == 0 then 0.0 else Sum(xs[..|xs| - 1]) + xs[|xs| - 1]
  }

  /** A sequence whose entries all equal c sums to c times its length. */
  lemma {:induction false} SumOfConstant(xs: seq<real>, c: real)
    requires forall i :: 0 <= i < |xs| ==> xs[i] == c
    ensures Sum(xs) == c * (|xs| as real)
  {
    if |xs| > 0 {
      var front := xs[..|xs| - 1];
      SumOfConstant(front, c);
      AddOneFactor(c, |front| as real);
    }
  }

  // ---------------------------------------------------------------------------------------
  // Weights and arclengths.

  /** Every weight is the panel length 4a/n, and the weights add up to the perimeter. */
  lemma WeightsSumToPerimeter(a: real, n: nat, nodes: Nodes)
    requires ValidArgs(a, n) && nodes == Reference(a, n)
    ensures forall i :: 0 <= i < n ==> nodes.w[i] == 4.0 * a / n as real
    ensures Sum(nodes.w) == nodes.lTotal
  {
    SumOfConstant(nodes.w, PanelLength(a, n));
    PanelsPerSide(a, n);
  }

  /** Arclengths grow with the node index: node i comes before node j exactly when i < j. */
  lemma ArclengthIncreasing(a: real, n: nat, nodes: Nodes, i: nat, j: nat)
    requires ValidArgs(a, n) && nodes == Reference(a, n) && i < n && j < n
    ensures nodes.s[i] < nodes.s[j] <==> i < j
  {
    PanelsPerSide(a, n);
    RealMulOrder(i as real + 0.5, j as real + 0.5, PanelLength(a, n));
  }

  lemma NextPanel(i: real, h: real)
    ensures (i + 1.0 + 0.5) * h - (i + 0.5) * h == h
  {
  }

  lemma LastPanel(bigN: real, h: real, l: real)
    requires h * bigN == l
    ensures l - (bigN - 1.0 + 0.5) * h + 0.5 * h == h
  {
  }

  /** The nodes are evenly spaced along the closed boundary: the first sits half a panel
      after the origin, consecutive nodes are one panel apart, and the gap from the last
      node round the corner at the origin to the first is one panel too. */
  lemma ArclengthEvenlySpaced(a: real, n: nat, nodes: Nodes)
    requires ValidArgs(a, n) && nodes == Reference(a, n)
    ensures nodes.s[0] == 0.5 * nodes.w[0]
    ensures forall i :: 0 <= i < n - 1 ==> nodes.s[i + 1] - nodes.s[i] == nodes.w[i]
    ensures nodes.lTotal - nodes.s[n - 1] + nodes.s[0] == nodes.w[n - 1]
  {
    var h := PanelLength(a, n);
    forall i | 0 <= i < n - 1
      ensures nodes.s[i + 1] - nodes.s[i] == nodes.w[i]
    {
      assert (i + 1) as real == i as real + 1.0;
      NextPanel(i as real, h);
    }
    PanelsPerSide(a, n);
    LastPanel(n as real, h, 4.0 * a);
    assert (n - 1) as real == n as real - 1.0;
  }

  /** Every arclength lies strictly inside (0, l_total), so the discretizer's defensive wrap
      leaves the raw arclength i*h + h/2 unchanged. */
  lemma WrapNeverFires(a: real, n: nat, nodes: Nodes, i: nat)
    requires ValidArgs(a, n) && nodes == Reference(a, n) && i < n
    ensures 0.0 < nodes.s[i] < nodes.lTotal
    ensures Wrap((i as real) * PanelLength(a, n) + 0.5 * PanelLength(a, n), nodes.lTotal) == nodes.s[i]
  {
    FloorFindsSide(a, n, i);
    PanelStart(i as real, PanelLength(a, n));
  }

  // ---------------------------------------------------------------------------------------
  // Sides.

  /** Each side is assigned exactly n/4 node indices. */
  lemma NodesPerSide(n: nat, side: Side)
    requires n >= 4 && n % 4 == 0
    ensures |set i: int | 0 <= i < n && NodeSide(n, i) == side| == n / 4
  {
    var m := n / 4;
    var k := SideIndexOf(side);
    SideAtIndexOf(side);
    var lo, hi := k * m, (k + 1) * m;
    var onSide := set i: int | 0 <= i < n && NodeSide(n, i) == side;
    var block := set i: int | lo <= i < hi && InInterval(lo, hi, i);
    DivMod(n, 4);
    IntMulOrder(0, k, m);
    IntMulOrder(k + 1, 4, m);
    forall i | i in onSide
      ensures i in block
    {
      SideIndexBelowFour(n, i);
      IndexOfSideAt(SideIndex(n, i));
      SideIndexBlock(n, i, k);
    }
    forall i | i in block
      ensures i in onSide
    {
      SideIndexBlock(n, i, k);
    }
    assert onSide == block;
    assert hi == lo + m;
    IntervalSize(lo, hi);
  }

  /** Counted on the output itself: exactly n/4 nodes have y == 0 (the bottom side),
      x == a (the right side), y == a (the top side) and x == 0 (the left side). */
  lemma NodesOnEachSide(a: real, n: nat, nodes: Nodes)
    requires ValidArgs(a, n) && nodes == Reference(a, n)
    ensures |set i: int | 0 <= i < n && nodes.y[i] == 0.0| == n / 4
    ensures |set i: int | 0 <= i < n && nodes.x[i] == a| == n / 4
    ensures |set i: int | 0 <= i < n && nodes.y[i] == a| == n / 4
    ensures |set i: int | 0 <= i < n && nodes.x[i] == 0.0| == n / 4
  {
    forall i: int | 0 <= i < n
      ensures NodeSide(n, i) == Bottom <==> nodes.y[i] == 0.0
      ensures NodeSide(n, i) == Right <==> nodes.x[i] == a
      ensures NodeSide(n, i) == Top <==> nodes.y[i] == a
      ensures NodeSide(n, i) == Left <==> nodes.x[i] == 0.0
    {
      NodesOnTheirSides(a, n, nodes, i);
    }
    assert (set i: int | 0 <= i < n && nodes.y[i] == 0.0)
        == (set i: int | 0 <= i < n && NodeSide(n, i) == Bottom);
    assert (set i: int | 0 <= i < n && nodes.x[i] == a)
        == (set i: int | 0 <= i < n && NodeSide(n, i) == Right);
    assert (set i: int | 0 <= i < n && nodes.y[i] == a)
        == (set i: int | 0 <= i < n && NodeSide(n, i) == Top);
    assert (set i: int | 0 <= i < n && nodes.x[i] == 0.0)
        == (set i: int | 0 <= i < n && NodeSide(n, i) == Left);
    NodesPerSide(n, Bottom);
    NodesPerSide(n, Right);
    NodesPerSide(n, Top);
    NodesPerSide(n, Left);
  }

  // ---------------------------------------------------------------------------------------
  // Positions.

  /** The position of node i written out per side, with t its offset along the side:
      (t, 0) on the bottom, (a, t) on the right, (a - t, a) on the top and (0, a - t) on the
      left, with normals (0, -1), (1, 0), (0, 1) and (-1, 0). */
  lemma NodeCoordinates(a: real, n: nat, nodes: Nodes, i: nat)
    requires ValidArgs(a, n) && nodes == Reference(a, n) && i < n
    ensures SideIndex(n, i) == 0 ==>
      nodes.x[i] == Offset(a, n, i) && nodes.y[i] == 0.0 && nodes.nx[i] == 0.0 && nodes.ny[i] == -1.0
    ensures SideIndex(n, i) == 1 ==>
      nodes.x[i] == a && nodes.y[i] == Offset(a, n, i) && nodes.nx[i] == 1.0 && nodes.ny[i] == 0.0
    ensures SideIndex(n, i) == 2 ==>
      nodes.x[i] == a - Offset(a, n, i) && nodes.y[i] == a && nodes.nx[i] == 0.0 && nodes.ny[i] == 1.0
    ensures SideIndex(n, i) == 3 ==>
      nodes.x[i] == 0.0 && nodes.y[i] == a - Offset(a, n, i) && nodes.nx[i] == -1.0 && nodes.ny[i] == 0.0
  {
    PointOnSideCoordinates(a, NodeSide(n, i), Offset(a, n, i));
  }

  /** Every node lies on the boundary of the square, on its own side and on no corner. */
  lemma NodesOnTheirSides(a: real, n: nat, nodes: Nodes, i: nat)
    requires ValidArgs(a, n) && nodes == Reference(a, n) && i < n
    ensures OnBoundary(a, Vec2(nodes.x[i], nodes.y[i]))
    ensures !IsCorner(a, Vec2(nodes.x[i], nodes.y[i]))
    ensures NodeSide(n, i) == Bottom <==> nodes.y[i] == 0.0
    ensures NodeSide(n, i) == Right <==> nodes.x[i] == a
    ensures NodeSide(n, i) == Top <==> nodes.y[i] == a
    ensures NodeSide(n, i) == Left <==> nodes.x[i] == 0.0
  {
    OffsetInsideSide(a, n, i);
    PointOnSideOnBoundary(a, NodeSide(n, i), Offset(a, n, i));
  }

  lemma OffsetDeterminesRemainder(a: real, n: nat, i: nat, j: nat)
    requires ValidArgs(a, n)
    ensures Offset(a, n, i) == Offset(a, n, j) <==> i % (n / 4) == j % (n / 4)
  {
    var m := n / 4;
    PanelsPerSide(a, n);
    RealMulOrder((i % m) as real + 0.5, (j % m) as real + 0.5, PanelLength(a, n));
    RealMulOrder((j % m) as real + 0.5, (i % m) as real + 0.5, PanelLength(a, n));
  }

  /** Distinct nodes sit at distinct points. */
  lemma NodesDistinct(a: real, n: nat, nodes: Nodes, i: nat, j: nat)
    requires ValidArgs(a, n) && nodes == Reference(a, n) && i < n && j < n
    ensures Vec2(nodes.x[i], nodes.y[i]) == Vec2(nodes.x[j], nodes.y[j]) <==> i == j
  {
    var m := n / 4;
    OffsetInsideSide(a, n, i);
    OffsetInsideSide(a, n, j);
    PointOnSideInjective(a, NodeSide(n, i), Offset(a, n, i), NodeSide(n, j), Offset(a, n, j));
    SideIndexBelowFour(n, i);
    SideIndexBelowFour(n, j);
    IndexOfSideAt(SideIndex(n, i));
    IndexOfSideAt(SideIndex(n, j));
    OffsetDeterminesRemainder(a, n, i, j);
    DivMod(i, m);
    DivMod(j, m);
  }

  // ---------------------------------------------------------------------------------------
  // Normals.

  /** Every normal is an axis-aligned unit vector (its dot product with itself,
      nx*nx + ny*ny, is 1) perpendicular to the side its node lies on. */
  lemma NormalsAreUnitAxisVectors(a: real, n: nat, nodes: Nodes, i: nat)
    requires ValidArgs(a, n) && nodes == Reference(a, n) && i < n
    ensures IsAxisUnit(Vec2(nodes.nx[i], nodes.ny[i]))
    ensures Dot(Vec2(nodes.nx[i], nodes.ny[i]), Vec2(nodes.nx[i], nodes.ny[i])) == 1.0
    ensures Dot(Vec2(nodes.nx[i], nodes.ny[i]), Direction(NodeSide(n, i))) == 0.0
  {
    assert Vec2(nodes.nx[i], nodes.ny[i]) == OutwardNormal(NodeSide(n, i));
    NormalIsUnitAxisVector(NodeSide(n, i));
  }

  /** Every normal points out of the square: the whole square lies behind it, and any step
      along it leaves the square. */
  lemma NormalsPointOutward(a: real, n: nat, nodes: Nodes, i: nat, q: Vec2, eps: real)
    requires ValidArgs(a, n) && nodes == Reference(a, n) && i < n
    requires InSquare(a, q) && eps > 0.0
    ensures Dot(Sub(q, Vec2(nodes.x[i], nodes.y[i])), Vec2(nodes.nx[i], nodes.ny[i])) <= 0.0
    ensures !InSquare(a, Vec2(nodes.x[i] + eps * nodes.nx[i], nodes.y[i] + eps * nodes.ny[i]))
  {
    OffsetInsideSide(a, n, i);
    NormalPointsOutward(a, NodeSide(n, i), Offset(a, n, i), q, eps);
  }
}
