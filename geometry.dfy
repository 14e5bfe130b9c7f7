/** Fixed geometry of the cube: faces, their neighbours and opposites, the 20 movable
    pieces ("minicubes") with their reference colourings, and the slots of each face.

    Faces double as colours: 0 top (z = 2), 1 front (y = 2), 2 left (x = 0),
    3 right (x = 2), 4 back (y = 0), 5 bottom (z = 0). */
module Geometry {
  import opened Wrappers

  const NFACES := 6
  const EMPTY_COLOR := -1
  const NMINICUBES := 20
  const NMINICUBES_PER_FACE := 8

  type Face = f: int | 0 <= f < NFACES
  type Position = p: int | 0 <= p < NMINICUBES

  /** A row of ADJACENTS. */
  type FaceCycle = s: seq<Face> | |s| == 4 witness [0, 0, 0, 0]
  /** A row of POSITIONS_BY_FACE. */
  type FaceSlots = s: seq<Position> | |s| == NMINICUBES_PER_FACE witness [0, 0, 0, 0, 0, 0, 0, 0]
  /** The colours seen on the six faces of one piece, EMPTY_COLOR where it has no sticker. */
  type Colors = s: seq<int> | |s| == NFACES witness [-1, -1, -1, -1, -1, -1]

  /** The four faces around each face, in clockwise order starting from the smallest.
      Rotating a piece clockwise about face f carries the colour on ADJACENTS[f][k]
      to ADJACENTS[f][k + 1]. */
  const ADJACENTS: seq<FaceCycle> := [
    [1, 2, 4, 3],
    [0, 3, 5, 2],
    [0, 1, 5, 4],
    [0, 4, 5, 1],
    [0, 2, 5, 3],
    [1, 3, 4, 2]
  ]

  const OPPOSITES: seq<Face> := [5, 4, 3, 2, 1, 0]

  /** The eight slots of each face: the four corners in clockwise order, then the four
      edges in clockwise order, each group starting from its smallest slot. */
  const POSITIONS_BY_FACE: seq<FaceSlots> := [
    [12, 14, 19, 17, 13, 16, 18, 15],
    [5, 17, 19, 7, 6, 10, 18, 11],
    [0, 12, 17, 5, 3, 8, 15, 10],
    [2, 7, 19, 14, 4, 11, 16, 9],
    [0, 2, 14, 12, 1, 9, 13, 8],
    [0, 5, 7, 2, 1, 3, 6, 4]
  ]

  /** The reference colouring of each piece, in the order the lattice is scanned
      (x fastest, then y, then z); -1 marks a face without a sticker. */
  const ORIGCOLORS: seq<Colors> := [
    [-1, -1, 2, -1, 4, 5], [-1, -1, -1, -1, 4, 5], [-1, -1, -1, 3, 4, 5],
    [-1, -1, 2, -1, -1, 5], [-1, -1, -1, 3, -1, 5],
    [-1, 1, 2, -1, -1, 5], [-1, 1, -1, -1, -1, 5], [-1, 1, -1, 3, -1, 5],
    [-1, -1, 2, -1, 4, -1], [-1, -1, -1, 3, 4, -1],
    [-1, 1, 2, -1, -1, -1], [-1, 1, -1, 3, -1, -1],
    [0, -1, 2, -1, 4, -1], [0, -1, -1, -1, 4, -1], [0, -1, -1, 3, 4, -1],
    [0, -1, 2, -1, -1, -1], [0, -1, -1, 3, -1, -1],
    [0, 1, 2, -1, -1, -1], [0, 1, -1, -1, -1, -1], [0, 1, -1, 3, -1, -1]
  ]

  predicate IsFace(f: int) {
    0 <= f < NFACES
  }

  /** The neighbours of a face are four distinct faces, none of them the face itself or
      its opposite, and neighbours two steps apart in the cycle are opposite faces. */
  lemma AdjacentsOf(f: Face)
    ensures OPPOSITES[f] != f && OPPOSITES[OPPOSITES[f]] == f
    ensures forall k :: 0 <= k < 4 ==> ADJACENTS[f][k] != f && ADJACENTS[f][k] != OPPOSITES[f]
    ensures forall j, k :: 0 <= j < k < 4 ==> ADJACENTS[f][j] != ADJACENTS[f][k]
    ensures forall k :: 0 <= k < 4 ==> OPPOSITES[ADJACENTS[f][k]] == ADJACENTS[f][(k + 2) % 4]
  {
    if f == 0 {} else if f == 1 {} else if f == 2 {} else if f == 3 {} else if f == 4 {} else {}
  }

  /** The eight slots of a face are distinct positions. */
  lemma FaceSlotsDistinct(f: Face)
    ensures forall j, k :: 0 <= j < k < NMINICUBES_PER_FACE ==> POSITIONS_BY_FACE[f][j] != POSITIONS_BY_FACE[f][k]
  {
    if f == 0 {} else if f == 1 {} else if f == 2 {} else if f == 3 {} else if f == 4 {} else {}
  }

  /** Which coordinate (0 = x, 1 = y, 2 = z) each face is perpendicular to, and which
      boundary plane of the 3x3x3 lattice (0 or 2) it lies on, as the drawing of the
      cube in the source shows. */
  const FACE_AXIS: seq<int> := [2, 1, 0, 0, 1, 2]
  const FACE_SIDE: seq<int> := [2, 2, 0, 2, 0, 0]

  function Coordinate(axis: int, x: int, y: int, z: int): int {
    if axis == 0 then x else if axis == 1 then y else z
  }

  /** The colour of face `face` of the lattice cell (x, y, z): the face itself when the
      cell lies on that face's boundary plane, EMPTY_COLOR otherwise. */
  function InitColor(face: int, x: int, y: int, z: int): (r: int)
    ensures r == EMPTY_COLOR || r == face
  {
    if face == 2 && x == 0 then face
    else if face == 4 && y == 0 then face
    else if face == 5 && z == 0 then face
    else if face == 3 && x == 2 then face
    else if face == 1 && y == 2 then face
    else if face == 0 && z == 2 then face
    else EMPTY_COLOR
  }

  /** A face of a cell carries its colour exactly when the cell lies on that face's
      boundary plane. */
  lemma InitColorOnBoundary(face: int, x: int, y: int, z: int)
    ensures InitColor(face, x, y, z) != EMPTY_COLOR <==>
      IsFace(face) && Coordinate(FACE_AXIS[face], x, y, z) == FACE_SIDE[face]
  {
  }

  /** Number of coordinates of a cell that lie on a boundary plane of the lattice. */
  function Extremes(x: int, y: int, z: int): nat {
    (if x == 0 || x == 2 then 1 else 0)
    + (if y == 0 || y == 2 then 1 else 0)
    + (if z == 0 || z == 2 then 1 else 0)
  }

  /** Number of faces below `f` that carry a colour in the cell (x, y, z). */
  function ColoredBelow(f: nat, x: int, y: int, z: int): nat
    requires f <= NFACES
  {
    if f == 0 then 0
    else ColoredBelow(f - 1, x, y, z) + (if InitColor(f - 1, x, y, z) != EMPTY_COLOR then 1 else 0)
  }

  lemma ColoredFacesAreExtremes(x: int, y: int, z: int)
    ensures ColoredBelow(NFACES, x, y, z) == Extremes(x, y, z)
  {
    assert ColoredBelow(1, x, y, z) == (if z == 2 then 1 else 0);
    assert ColoredBelow(2, x, y, z) == ColoredBelow(1, x, y, z) + (if y == 2 then 1 else 0);
    assert ColoredBelow(3, x, y, z) == ColoredBelow(2, x, y, z) + (if x == 0 then 1 else 0);
    assert ColoredBelow(4, x, y, z) == ColoredBelow(3, x, y, z) + (if x == 2 then 1 else 0);
    assert ColoredBelow(5, x, y, z) == ColoredBelow(4, x, y, z) + (if y == 0 then 1 else 0);
  }

  /** Number of coloured faces of the cell (x, y, z). */
  method CountMinicubeColors(x: int, y: int, z: int) returns (count: int)
    ensures count == Extremes(x, y, z)
  {
    count := 0;
    for f := 0 to NFACES
      invariant count == ColoredBelow(f, x, y, z)
    {
      if InitColor(f, x, y, z) != EMPTY_COLOR {
        count := count + 1;
      }
    }
    ColoredFacesAreExtremes(x, y, z);
  }

  /** The colouring of cell (x, y, z): the colour of each of its faces. */
  function CellColors(x: int, y: int, z: int): Colors {
    [InitColor(0, x, y, z), InitColor(1, x, y, z), InitColor(2, x, y, z),
     InitColor(3, x, y, z), InitColor(4, x, y, z), InitColor(5, x, y, z)]
  }

  lemma CellColorsAt(x: int, y: int, z: int)
    ensures forall f :: 0 <= f < NFACES ==> CellColors(x, y, z)[f] == InitColor(f, x, y, z)
  {
  }

  /** The colourings of the cells (x, y, z) the scan keeps: those with more than one
      coloured face, which leaves out the centre of each face and the core. */
  function Keep(x: int, y: int, z: int): seq<Colors> {
    if Extremes(x, y, z) > 1 then [CellColors(x, y, z)] else []
  }

  /** What the scan keeps from the first `xs` cells of row (y, z). */
  function RowScan(xs: nat, y: int, z: int): seq<Colors>
    requires xs <= 3
  {
    if xs == 0 then [] else RowScan(xs - 1, y, z) + Keep(xs - 1, y, z)
  }

  /** What the scan keeps from the first `ys` rows of layer z. */
  function LayerScan(ys: nat, z: int): seq<Colors>
    requires ys <= 3
  {
    if ys == 0 then [] else LayerScan(ys - 1, z) + RowScan(3, ys - 1, z)
  }

  /** What the scan keeps from the first `zs` layers of the lattice. */
  function LatticeScan(zs: nat): seq<Colors>
    requires zs <= 3
  {
    if zs == 0 then [] else LatticeScan(zs - 1) + LayerScan(3, zs - 1)
  }

  /** Everything kept before cell (x, y, z), in scan order. */
  function ScanBefore(x: nat, y: nat, z: nat): seq<Colors>
    requires x <= 3 && y < 3 && z < 3
  {
    LatticeScan(z) + LayerScan(y, z) + RowScan(x, y, z)
  }

  /** How the scan proceeds: a row starts after the rows before it, each cell appends
      what it keeps, a finished row ends where the next starts, and a finished layer
      ends where the next layer starts. */
  lemma ScanRowStarts(y: nat, z: nat)
    requires y < 3 && z < 3
    ensures ScanBefore(0, y, z) == LatticeScan(z) + LayerScan(y, z)
  {
    assert RowScan(0, y, z) == [];
  }

  lemma ScanCellStep(x: nat, y: nat, z: nat)
    requires x < 3 && y < 3 && z < 3
    ensures ScanBefore(x + 1, y, z) == ScanBefore(x, y, z) + Keep(x, y, z)
  {
    assert RowScan(x + 1, y, z) == RowScan(x, y, z) + Keep(x, y, z);
  }

  lemma ScanRowEnds(y: nat, z: nat)
    requires y < 3 && z < 3
    ensures ScanBefore(3, y, z) == LatticeScan(z) + LayerScan(y + 1, z)
  {
    assert LayerScan(y + 1, z) == LayerScan(y, z) + RowScan(3, y, z);
  }

  lemma ScanLayerEnds(z: nat)
    requires z < 3
    ensures LatticeScan(z) + LayerScan(3, z) == LatticeScan(z + 1)
  {
  }

  lemma ScanRow00()
    ensures RowScan(3, 0, 0) == ORIGCOLORS[0..3]
  {
  }

  lemma ScanRow10()
    ensures RowScan(3, 1, 0) == ORIGCOLORS[3..5]
  {
  }

  lemma ScanRow20()
    ensures RowScan(3, 2, 0) == ORIGCOLORS[5..8]
  {
  }

  lemma ScanLayer0()
    ensures LayerScan(3, 0) == ORIGCOLORS[0..8]
  {
    ScanRow00(); ScanRow10(); ScanRow20();
    assert ORIGCOLORS[0..8] == ORIGCOLORS[0..3] + ORIGCOLORS[3..5] + ORIGCOLORS[5..8];
  }

  lemma ScanRow01()
    ensures RowScan(3, 0, 1) == ORIGCOLORS[8..10]
  {
  }

  lemma ScanRow11()
    ensures RowScan(3, 1, 1) == ORIGCOLORS[10..10]
  {
  }

  lemma ScanRow21()
    ensures RowScan(3, 2, 1) == ORIGCOLORS[10..12]
  {
  }

  lemma ScanLayer1()
    ensures LayerScan(3, 1) == ORIGCOLORS[8..12]
  {
    ScanRow01(); ScanRow11(); ScanRow21();
    assert ORIGCOLORS[8..12] == ORIGCOLORS[8..10] + ORIGCOLORS[10..10] + ORIGCOLORS[10..12];
  }

  lemma ScanRow02()
    ensures RowScan(3, 0, 2) == ORIGCOLORS[12..15]
  {
  }

  lemma ScanRow12()
    ensures RowScan(3, 1, 2) == ORIGCOLORS[15..17]
  {
  }

  lemma ScanRow22()
    ensures RowScan(3, 2, 2) == ORIGCOLORS[17..20]
  {
  }

  lemma ScanLayer2()
    ensures LayerScan(3, 2) == ORIGCOLORS[12..20]
  {
    ScanRow02(); ScanRow12(); ScanRow22();
    assert ORIGCOLORS[12..20] == ORIGCOLORS[12..15] + ORIGCOLORS[15..17] + ORIGCOLORS[17..20];
  }

  /** ORIGCOLORS is exactly what scanning the lattice keeps. */
  lemma ReferenceColoringsScan()
    ensures LatticeScan(3) == ORIGCOLORS
  {
    LatticeLayers();
    ScanLayer0(); ScanLayer1(); ScanLayer2();
    SlicesJoin(ORIGCOLORS, 0, 8, 12, 20);
    assert ORIGCOLORS[0..20] == ORIGCOLORS;
  }

  /** The lattice is scanned layer after layer. */
  lemma LatticeLayers()
    ensures LatticeScan(3) == LayerScan(3, 0) + LayerScan(3, 1) + LayerScan(3, 2)
  {
    assert LatticeScan(1) == LatticeScan(0) + LayerScan(3, 0);
    assert LatticeScan(0) + LayerScan(3, 0) == LayerScan(3, 0);
  }

  lemma SlicesJoin<T>(s: seq<T>, a: nat, b: nat, c: nat, d: nat)
    requires a <= b <= c <= d <= |s|
    ensures s[a..b] + s[b..c] + s[c..d] == s[a..d]
  {
  }

  lemma RowScanGrows(a: nat, b: nat, y: int, z: int)
    requires a <= b <= 3
    ensures |RowScan(a, y, z)| <= |RowScan(b, y, z)|
    decreases b
  {
    if a < b {
      RowScanGrows(a, b - 1, y, z);
    }
  }

  lemma LayerScanGrows(a: nat, b: nat, z: int)
    requires a <= b <= 3
    ensures |LayerScan(a, z)| <= |LayerScan(b, z)|
    decreases b
  {
    if a < b {
      LayerScanGrows(a, b - 1, z);
    }
  }

  lemma LatticeScanGrows(a: nat, b: nat)
    requires a <= b <= 3
    ensures |LatticeScan(a)| <= |LatticeScan(b)|
    decreases b
  {
    if a < b {
      LatticeScanGrows(a, b - 1);
    }
  }

  /** A cell the scan keeps finds a free row: fewer than NMINICUBES rows are kept before it. */
  lemma ScanRoom(x: nat, y: nat, z: nat)
    requires x < 3 && y < 3 && z < 3
    ensures |ScanBefore(x, y, z) + Keep(x, y, z)| <= NMINICUBES
  {
    RowScanGrows(x + 1, 3, y, z);
    LayerScanGrows(y + 1, 3, z);
    LatticeScanGrows(z + 1, 3);
    ReferenceColoringsScan();
  }

  // Finding a piece's position from the faces it shows.

  /** Two colourings have the same shape when they carry stickers on the same faces. */
  predicate SameShape(a: seq<int>, b: seq<int>) {
    |a| == NFACES && |b| == NFACES
    && forall f :: 0 <= f < NFACES ==> (a[f] == EMPTY_COLOR <==> b[f] == EMPTY_COLOR)
  }

  /** The first piece at or after `i` whose reference colouring has the shape of `colors`,
      or -1 when there is none. */
  function FindPositionFrom(colors: seq<int>, i: nat): (r: int)
    requires i <= NMINICUBES
    ensures r == -1 || i <= r < NMINICUBES
    ensures r != -1 ==> SameShape(ORIGCOLORS[r], colors)
    ensures forall j :: i <= j < NMINICUBES && (r == -1 || j < r) ==> !SameShape(ORIGCOLORS[j], colors)
    decreases NMINICUBES - i
  {
    if i == NMINICUBES then -1
    else if SameShape(ORIGCOLORS[i], colors) then i
    else FindPositionFrom(colors, i + 1)
  }

  /** The position whose reference colouring has stickers on exactly the faces where
      `colors` has them: the first such position, or -1 when there is none. */
  function FindMinicubePosition(colors: Colors): (r: int)
    ensures r == -1 || 0 <= r < NMINICUBES
    ensures r != -1 ==> SameShape(ORIGCOLORS[r], colors)
    ensures forall j :: 0 <= j < NMINICUBES && (r == -1 || j < r) ==> !SameShape(ORIGCOLORS[j], colors)
  {
    FindPositionFrom(colors, 0)
  }

  /** The lattice cell, as 9 z + 3 y + x, that a shape of stickers belongs to. */
  function ShapeCell(c: Colors): nat {
    var x := if c[2] != EMPTY_COLOR then 0 else if c[3] != EMPTY_COLOR then 2 else 1;
    var y := if c[4] != EMPTY_COLOR then 0 else if c[1] != EMPTY_COLOR then 2 else 1;
    var z := if c[5] != EMPTY_COLOR then 0 else if c[0] != EMPTY_COLOR then 2 else 1;
    9 * z + 3 * y + x
  }

  lemma ShapeCellsIncrease(i: nat)
    requires i + 1 < NMINICUBES
    ensures ShapeCell(ORIGCOLORS[i]) < ShapeCell(ORIGCOLORS[i + 1])
  {
    if i == 0 {} else if i == 1 {} else if i == 2 {} else if i == 3 {} else if i == 4 {}
    else if i == 5 {} else if i == 6 {} else if i == 7 {} else if i == 8 {} else if i == 9 {}
    else if i == 10 {} else if i == 11 {} else if i == 12 {} else if i == 13 {}
    else if i == 14 {} else if i == 15 {} else if i == 16 {} else if i == 17 {} else {}
  }

  lemma ShapeCellsOrdered(i: nat, j: nat)
    requires i < j < NMINICUBES
    ensures ShapeCell(ORIGCOLORS[i]) < ShapeCell(ORIGCOLORS[j])
    decreases j - i
  {
    ShapeCellsIncrease(i);
    if i + 1 < j {
      ShapeCellsOrdered(i + 1, j);
    }
  }

  /** No two pieces have the same shape of stickers. */
  lemma ReferenceShapesDistinct(i: Position, j: Position)
    requires SameShape(ORIGCOLORS[i], ORIGCOLORS[j])
    ensures i == j
  {
    assert ShapeCell(ORIGCOLORS[i]) == ShapeCell(ORIGCOLORS[j]);
    if i < j {
      ShapeCellsOrdered(i, j);
    } else if j < i {
      ShapeCellsOrdered(j, i);
    }
  }

  /** A colouring with the shape of piece p is found at position p. */
  lemma FindsShape(colors: Colors, p: Position)
    requires SameShape(colors, ORIGCOLORS[p])
    ensures FindMinicubePosition(colors) == p
  {
    var r := FindMinicubePosition(colors);
    if r != p {
      assert r != -1 ==> SameShape(ORIGCOLORS[r], ORIGCOLORS[p]);
      if r != -1 {
        ReferenceShapesDistinct(r, p);
      }
    }
  }

  /** Every piece in its reference colouring is found at its own position. */
  lemma FindsReferencePositions(p: Position)
    ensures FindMinicubePosition(ORIGCOLORS[p]) == p
  {
    FindsShape(ORIGCOLORS[p], p);
  }
}
