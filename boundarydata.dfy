/** Boundary data for the square billiard: the node set handed to the boundary-element
    assembly, and the discretizer that places n evenly spaced panel midpoints on the
    boundary of the square [0,a] x [0,a].

    Floating-point numbers are modelled as exact reals.
 */
module BoundaryData {
  import opened Geometry
  import opened Arith

  /** The boundary data of a billiard: one entry per node in each of six parallel sequences
      (position, outward normal, quadrature weight and arclength), and the perimeter. */
  datatype Nodes = Nodes(
    x: seq<real>,
    y: seq<real>,
    nx: seq<real>,
    ny: seq<real>,
    w: seq<real>,
    s: seq<real>,
    lTotal: real
  )

  /** The arguments the discretizer accepts: a positive side length and a node count that is
      a positive multiple of 4. */
  predicate ValidArgs(a: real, n: int) {
    a > 0.0 && n >= 4 && n % 4 == 0
  }

  // ---------------------------------------------------------------------------------------
  // The reference discretization, stated with integer side indices.

  /** The common panel length h: the perimeter 4a split into n equal panels. */
  function PanelLength(a: real, n: nat): real
    requires n > 0
  {
    4.0 * a / n as real
  }

  /** The arclength of the midpoint of panel i, measured counter-clockwise from the origin. */
  function Arclength(a: real, n: nat, i: nat): real
    requires n > 0
  {
    (i as real + 0.5) * PanelLength(a, n)
  }

  /** Node i belongs to the (i / (n/4))-th block of n/4 consecutive nodes. */
  function SideIndex(n: nat, i: nat): nat
    requires n >= 4 && n % 4 == 0
  {
    i / (n / 4)
  }

  /** The distance of node i from the start of its side: its place within its block. */
  function Offset(a: real, n: nat, i: nat): real
    requires n >= 4 && n % 4 == 0
  {
    ((i % (n / 4)) as real + 0.5) * PanelLength(a, n)
  }

  function NodeSide(n: nat, i: nat): Side
    requires n >= 4 && n % 4 == 0 && i < n
  {
    SideIndexBelowFour(n, i);
    SideAt(SideIndex(n, i))
  }

  function NodePosition(a: real, n: nat, i: nat): Vec2
    requires n >= 4 && n % 4 == 0 && i < n
  {
    PointOnSide(a, NodeSide(n, i), Offset(a, n, i))
  }

  function NodeNormal(n: nat, i: nat): Vec2
    requires n >= 4 && n % 4 == 0 && i < n
  {
    OutwardNormal(NodeSide(n, i))
  }

  /** The node set the discretizer is meant to produce, one entry per panel. */
  function Reference(a: real, n: nat): (r: Nodes)
    requires ValidArgs(a, n)
    ensures |r.x| == |r.y| == |r.nx| == |r.ny| == |r.w| == |r.s| == n
    ensures r.lTotal == 4.0 * a
  {
    Nodes(seq(n, i requires 0 <= i < n => NodePosition(a, n, i).x),
          seq(n, i requires 0 <= i < n => NodePosition(a, n, i).y),
          seq(n, i requires 0 <= i < n => NodeNormal(n, i).x),
          seq(n, i requires 0 <= i < n => NodeNormal(n, i).y),
          seq(n, i => PanelLength(a, n)),
          seq(n, i requires 0 <= i < n => Arclength(a, n, i)),
          4.0 * a)
  }

  // ---------------------------------------------------------------------------------------
  // Arithmetic facts relating the integer side index to the floor of the arclength.

  lemma SideIndexBelowFour(n: nat, i: nat)
    requires n >= 4 && n % 4 == 0 && i < n
    ensures SideIndex(n, i) < 4
  {
    var m := n / 4;
    var q := i / m;
    DivMod(i, m);
    assert q * m < 4 * m;
    IntMulOrder(q, 4, m);
  }

  /** Node i is on side k exactly when it is among the k-th block of n/4 consecutive nodes. */
  lemma SideIndexBlock(n: nat, i: nat, k: int)
    requires n >= 4 && n % 4 == 0 && i < n
    ensures SideIndex(n, i) == k <==> k * (n / 4) <= i < (k + 1) * (n / 4)
  {
    var m := n / 4;
    var q := i / m;
    DivMod(i, m);
    assert (q + 1) * m == q * m + m;
    assert (k + 1) * m == k * m + m;
    IntMulOrder(k, q + 1, m);
    IntMulOrder(q, k + 1, m);
  }

  lemma PanelsPerSideReal(a: real, bigN: real, m: real)
    requires a > 0.0 && bigN > 0.0 && bigN == 4.0 * m
    ensures 4.0 * a / bigN > 0.0
    ensures (4.0 * a / bigN) * m == a
    ensures (4.0 * a / bigN) * bigN == 4.0 * a
  {
  }

  /** h is positive, n/4 panels make up one side, and n panels the whole perimeter. */
  lemma PanelsPerSide(a: real, n: nat)
    requires ValidArgs(a, n)
    ensures PanelLength(a, n) > 0.0
    ensures PanelLength(a, n) * ((n / 4) as real) == a
    ensures PanelLength(a, n) * (n as real) == 4.0 * a
  {
    CastProduct(4, n / 4);
    PanelsPerSideReal(a, n as real, (n / 4) as real);
  }

  lemma OffsetReal(h: real, m: real, a: real, c: real)
    requires h > 0.0 && h * m == a && 0.0 < c < m
    ensures 0.0 < c * h < a
  {
  }

  /** The offset of every node lies strictly inside its side. */
  lemma OffsetInsideSide(a: real, n: nat, i: nat)
    requires ValidArgs(a, n)
    ensures 0.0 < Offset(a, n, i) < a
  {
    var m := n / 4;
    DivMod(i, m);
    PanelsPerSide(a, n);
    OffsetReal(PanelLength(a, n), m as real, a, ((i % m) as real) + 0.5);
  }

  lemma ArclengthReal(i: real, q: real, m: real, rm: real, h: real, a: real)
    requires i == q * m + rm && h * m == a
    ensures (i + 0.5) * h == q * a + (rm + 0.5) * h
  {
  }

  /** The arclength of node i is a whole number of sides plus its offset. */
  lemma ArclengthDecomposes(a: real, n: nat, i: nat)
    requires ValidArgs(a, n)
    ensures Arclength(a, n, i) == (SideIndex(n, i) as real) * a + Offset(a, n, i)
  {
    var m := n / 4;
    var q, rm := i / m, i % m;
    DivMod(i, m);
    CastProduct(q, m);
    PanelsPerSide(a, n);
    ArclengthReal(i as real, q as real, m as real, rm as real, PanelLength(a, n), a);
  }

  lemma FloorRealBounds(len: real, q: real, t: real, a: real)
    requires a > 0.0 && 0.0 < t < a && 0.0 <= q <= 3.0
    requires len == q * a + t
    ensures 0.0 < len < 4.0 * a
    ensures len / a == q + t / a && 0.0 <= t / a < 1.0
    ensures len - q * a == t
  {
    DivideWholePlusRemainder(q, a, t);
    RealMulOrder(q, 3.0, a);
    RealMulOrder(0.0, q, a);
  }

  lemma FloorReal(len: real, q: int, t: real, a: real)
    requires a > 0.0 && 0.0 < t < a && 0 <= q < 4
    requires len == (q as real) * a + t
    ensures 0.0 < len < 4.0 * a
    ensures (len / a).Floor == q
    ensures len - (q as real) * a == t
  {
    FloorRealBounds(len, q as real, t, a);
    FloorOfWholePlusFraction(q, t / a);
  }

  /** How the discretizer finds the side of node i: the arclength lies strictly inside the
      perimeter, its floor in side lengths is the block index i / (n/4), and what is left
      over is the offset of i within its block. */
  lemma FloorFindsSide(a: real, n: nat, i: nat)
    requires ValidArgs(a, n) && i < n
    ensures 0.0 < Arclength(a, n, i) < 4.0 * a
    ensures (Arclength(a, n, i) / a).Floor == SideIndex(n, i)
    ensures Arclength(a, n, i) - (SideIndex(n, i) as real) * a == Offset(a, n, i)
  {
    SideIndexBelowFour(n, i);
    OffsetInsideSide(a, n, i);
    ArclengthDecomposes(a, n, i);
    FloorReal(Arclength(a, n, i), SideIndex(n, i), Offset(a, n, i), a);
  }

  // ---------------------------------------------------------------------------------------
  // The discretizer.

  /** The defensive wrap of an arclength into [0, l): an arclength at or beyond the
      perimeter is reduced by a whole number of perimeters; any other is kept as it is. */
  function Wrap(s: real, l: real): (r: real)
    requires l > 0.0
    ensures s < l ==> r == s
    ensures s >= l ==> 0.0 <= r < l
    ensures ((s - r) / l).Floor as real == (s - r) / l
  {
    if s >= l then
      var k := (s / l).Floor;
      WrapStep(s, l, k as real);
      s - l * (k as real)
    else
      s
  }

  lemma WrapStep(s: real, l: real, k: real)
    requires l > 0.0 && k <= s / l < k + 1.0
    ensures 0.0 <= s - l * k < l
    ensures (s - (s - l * k)) / l == k
  {
    LowerFromQuotient(s, l, k);
    UpperFromQuotient(s, l, k);
    RemovedMultiple(s, l, k);
  }

  lemma PanelStart(i: real, h: real)
    ensures i * h + 0.5 * h == (i + 0.5) * h
  {
  }

  /** The point at distance t along side number `side` and its outward normal: indices 0, 1
      and 2 are the bottom, right and top sides, any other index the left side. */
  method PlaceNode(a: real, side: int, t: real) returns (xi: real, yi: real, nxi: real, nyi: real)
    ensures Vec2(xi, yi) == PointOnSide(a, SideAt(side), t)
    ensures Vec2(nxi, nyi) == OutwardNormal(SideAt(side))
  {
    PointOnSideCoordinates(a, SideAt(side), t);
    match side {
      case 0 => xi, yi, nxi, nyi := t, 0.0, 0.0, -1.0;
      case 1 => xi, yi, nxi, nyi := a, t, 1.0, 0.0;
      case 2 => xi, yi, nxi, nyi := a - t, a, 0.0, 1.0;
      case _ => xi, yi, nxi, nyi := 0.0, a - t, -1.0, 0.0;
    }
  }

  /** Places n panel midpoints on the boundary of the square [0,a] x [0,a]. */
  method SquareBilliardNodes(a: real, n: nat) returns (nodes: Nodes)
    requires a > 0.0
    requires n >= 4 && n % 4 == 0
    ensures nodes == Reference(a, n)
  {
    var lTotal := 4.0 * a;
    var h := lTotal / n as real;
    var halfH := 0.5 * h;

    var x, y, nx, ny, w, s := [], [], [], [], [], [];
    ghost var r := Reference(a, n);

    for i := 0 to n
      invariant x == r.x[..i] && y == r.y[..i]
      invariant nx == r.nx[..i] && ny == r.ny[..i]
      invariant w == r.w[..i] && s == r.s[..i]
    {
      var si := (i as real) * h + halfH;
      PanelStart(i as real, h);
      FloorFindsSide(a, n, i);
      assert si == Arclength(a, n, i);
      var sWrap := Wrap(si, lTotal);

      var side := (sWrap / a).Floor;
      var t := sWrap - (side as real) * a;
      assert side == SideIndex(n, i) && t == Offset(a, n, i);

      var xi, yi, nxi, nyi := PlaceNode(a, side, t);

      x := x + [xi];
      y := y + [yi];
      nx := nx + [nxi];
      ny := ny + [nyi];
      w := w + [h];
      s := s + [sWrap];
    }
    nodes := Nodes(x, y, nx, ny, w, s, lTotal);
  }
}
