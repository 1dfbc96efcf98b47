# Square-billiard boundary discretizer

rustbem is meant to assemble a boundary-element matrix for the 2D Helmholtz equation over a
*node set*: sample points on the boundary of a billiard, each with an outward normal, a
quadrature weight and an arclength. Of that pipeline only the kernel exists; matrix assembly
is still an empty stub. This project models the reference discretizer that produces the node
set, `square_billiard_nodes(a, n)`. It places `n` evenly spaced panel midpoints on the
boundary of the square `[0,a] x [0,a]` and returns them in the `Nodes` record.

Floating-point numbers are exact reals here.

The discretizer is imperative, so `BoundaryData.SquareBilliardNodes` is a method with the
source's loop:
- it computes `s_i = i*h + h/2`;
- it applies the defensive wrap;
- it finds `side = floor(s/a)` and `t = s - side*a`;
- it selects the coordinates and normal per side;
- it appends to six sequences.

The method is proved to return `BoundaryData.Reference(a, n)`. That reference node set is
defined without floors: node `i` lies on side `i / (n/4)`, at offset `(i % (n/4) + 1/2) h`
along that side. The points on a side and the side normals come from an independent
description of the square in module `Geometry`:
- each side starts at one corner and runs along a unit direction to the next;
- each normal is that direction turned clockwise.

The lemmas in `NodeProperties` are stated about `Reference(a, n)`, so they hold for every
output of the method.

Files:
- `arith.dfy` (module `Arith`): small facts of integer and real arithmetic.
- `geometry.dfy` (module `Geometry`): the square, its sides, points on sides and outward
  normals.
- `boundarydata.dfy` (module `BoundaryData`): the `Nodes` record, the reference node set, the
  arithmetic of side and offset, the wrap, and the discretizer method.
- `properties.dfy` (module `NodeProperties`): properties of the node set.

## Model

| member | source | states |
|---|---|---|
| BoundaryData.SquareBilliardNodes | src/boundarydata.rs:19-72 | for `a > 0` and `n` a positive multiple of 4 (the asserts at lines 22-23, as preconditions), the loop's output is exactly the reference node set: every position, normal, weight and arclength, and `l_total = 4a` |
| BoundaryData.Reference | src/boundarydata.rs:26-71 | all six sequences of the node set have length `n` and the perimeter is `4a` |
| BoundaryData.PlaceNode | src/boundarydata.rs:55-60 | the per-side match returns the point at distance `t` along side `side` of the square and that side's outward normal; indices other than 0, 1, 2 give the left side, as the `_` arm does |
| BoundaryData.Wrap | src/boundarydata.rs:41-45 | an arclength below the perimeter is kept unchanged; one at or beyond it is brought into `[0, l)` by removing a whole number of perimeters |
| BoundaryData.FloorFindsSide | src/boundarydata.rs:40-53 | the arclength of node `i` lies strictly inside `(0, 4a)`, its floor in side lengths is `i / (n/4)`, and what is left over is the offset of `i` within its block |
| BoundaryData.SideIndexBelowFour | src/boundarydata.rs:52 | the side index is always at most 3 |
| BoundaryData.SideIndexBlock | src/boundarydata.rs:52 | node `i` is on side `k` exactly when `k*(n/4) <= i < (k+1)*(n/4)` |
| BoundaryData.PanelsPerSide | src/boundarydata.rs:26-27 | the panel length `h = 4a/n` is positive, `n/4` panels make up one side and `n` panels the whole perimeter |
| BoundaryData.OffsetInsideSide | src/boundarydata.rs:53 | the offset `t` of every node lies strictly between 0 and `a` |
| BoundaryData.ArclengthDecomposes | src/boundarydata.rs:40 | the arclength `(i + 1/2) h` equals a whole number `i / (n/4)` of sides plus the offset |
| Geometry.PointOnSideCoordinates | src/boundarydata.rs:55-60 | the point at distance `t` along the bottom, right, top and left side is `(t,0)`, `(a,t)`, `(a-t,a)` and `(0,a-t)` |
| Geometry.SidesConnect | src/boundarydata.rs:48-51 | each side runs from its start corner to the start corner of the next side, counter-clockwise |
| Geometry.PointOnSideOnBoundary | src/boundarydata.rs:48-53 | a point strictly inside a side is on the boundary of the square and is not a corner; which side it is on can be read off its coordinates, in both directions |
| Geometry.NormalIsUnitAxisVector | src/boundarydata.rs:56-59 | each side's normal is an axis-aligned unit vector perpendicular to the side |
| Geometry.NormalPointsOutward | src/boundarydata.rs:48-51 | the whole square lies behind the normal at any point of a side, and any step along the normal leaves the square |
| Geometry.PointOnSideInjective | src/boundarydata.rs:55-60 | two points strictly inside sides coincide exactly when their sides and offsets are equal |
| NodeProperties.SumOfConstant | src/boundarydata.rs:67 | a sequence whose entries all equal `c` sums to `c` times its length |
| NodeProperties.WeightsSumToPerimeter | src/boundarydata.rs:27-67 | every weight is `4a/n`, and the weights add up to `l_total` |
| NodeProperties.ArclengthIncreasing | src/boundarydata.rs:40-68 | `s[i] < s[j]` exactly when `i < j`: the arclengths are strictly increasing |
| NodeProperties.ArclengthEvenlySpaced | src/boundarydata.rs:38-68 | `s[0] = h/2`; consecutive arclengths differ by one weight; the gap from the last node round to the first is also one weight |
| NodeProperties.WrapNeverFires | src/boundarydata.rs:40-45 | every arclength lies in `(0, l_total)`, and the wrap leaves the raw value `i*h + h/2` unchanged |
| NodeProperties.NodesPerSide | src/boundarydata.rs:23-52 | each of the four sides is assigned exactly `n/4` node indices |
| NodeProperties.NodesOnEachSide | src/boundarydata.rs:52-68 | counted on the output coordinates, exactly `n/4` nodes have `y = 0`, `x = a`, `y = a` and `x = 0` |
| NodeProperties.NodeCoordinates | src/boundarydata.rs:48-60 | node `i` on side 0, 1, 2 or 3 has position `(t,0)`, `(a,t)`, `(a-t,a)` or `(0,a-t)` with `t` its offset, and normal `(0,-1)`, `(1,0)`, `(0,1)` or `(-1,0)` |
| NodeProperties.NodesOnTheirSides | src/boundarydata.rs:25-53 | every node lies on the boundary of the square, on no corner, and on the side its index assigns it (`y = 0` exactly for the bottom side, and so on) |
| NodeProperties.OffsetDeterminesRemainder | src/boundarydata.rs:53 | two nodes have the same offset exactly when they have the same place `i % (n/4)` within their blocks |
| NodeProperties.NodesDistinct | src/boundarydata.rs:38-60 | two nodes sit at the same point exactly when they are the same node |
| NodeProperties.NormalsAreUnitAxisVectors | src/boundarydata.rs:56-59 | every normal is one of the four axis unit vectors, `nx*nx + ny*ny = 1`, and it is perpendicular to the node's side |
| NodeProperties.NormalsPointOutward | src/boundarydata.rs:48-59 | every normal points out of the square: the square lies behind it, and any step along it leaves the square |

## Left out

- `plot_nodes_svg` (src/boundarydata.rs:78-184) renders SVG through a plotting library. It is drawing and file output only.
- The kernel in src/bem.rs is left out. It is floating-point special-function numerics around a foreign Hankel routine.
- The matrix-assembly, singular-value and spectrum functions in src/bem.rs are left out. They are empty stubs.
- `main` and `print_matrix` in src/main.rs are left out. They are console output and timing.
- f64 rounding, non-finite f64 values and f64 overflow are not modelled; every quantity is an exact real. The asserts at lines 22-23 let `a = +inf` through, and any finite `a` large enough that `4.0 * a` at line 26 overflows. For those, the f64 computation produces infinite and NaN values that the model does not describe. In exact arithmetic the model shows the wrap at lines 43-45 never changes a value; it says nothing about rounded `f64` values.
- The `as i32` conversion of the floor (line 52) is modelled as the plain integer floor. In exact arithmetic its saturation at the limits of `i32` cannot occur, because the side index is between 0 and 3. In the non-finite case above, Rust's rule that `NaN as i32` is 0 does apply; the model does not capture it.
- `Vec::with_capacity` (lines 31-36) is modelled as an empty sequence. Capacity and allocation are not modelled.
- The panics of the asserts at lines 22-23 are modelled as preconditions of `SquareBilliardNodes`, not as an error path.
