/** Where a piece sits, read off from the faces its stickers show: the pieces of the
    cube in an orientation, and how turning a piece moves it between positions. */
module Pieces {
  import opened Geometry
  import opened Orientations

  /** The colours a piece with reference colouring `orig` shows in orientation `orient`:
      face f shows the colour the piece had on face orient[f]. */
  function Oriented(orig: Colors, orient: FaceOrder): (r: Colors)
    ensures forall f :: 0 <= f < NFACES ==> r[f] == orig[orient[f]]
  {
    [orig[orient[0]], orig[orient[1]], orig[orient[2]], orig[orient[3]], orig[orient[4]], orig[orient[5]]]
  }

  /** The colours piece i shows in orientation o. */
  function PieceColors(i: Position, o: Orient): Colors {
    Oriented(ORIGCOLORS[i], ORIENTATIONS[o])
  }

  /** Where piece i sits when in orientation o, found from its colours as the cube
      state does; -1 if no position matches. */
  function PiecePosition(i: Position, o: Orient): int {
    FindMinicubePosition(PieceColors(i, o))
  }

  /** In orientation 0 every piece shows its reference colouring. */
  lemma PieceColorsIdentity(i: Position)
    ensures PieceColors(i, 0) == ORIGCOLORS[i]
  {
    OrientationsArePermutations(0, 0);
  }

  /** Turning a piece and then reading its colours through an orientation is the same as
      turning the colours it shows. */
  lemma OrientedTurned(orig: Colors, r: Face, c: FaceOrder)
    ensures Oriented(orig, Turned(r, c)) == Turned(r, Oriented(orig, c))
  {
    if r == 0 {} else if r == 1 {} else if r == 2 {} else if r == 3 {} else if r == 4 {} else {}
  }

  /** The colours piece i shows after a quarter turn about r from orientation o are its
      colours in o, turned about r. */
  lemma PieceColorsTurned(i: Position, r: Face, o: Orient)
    ensures PieceColors(i, TRANSFORMATIONS[r][o]) == Turned(r, PieceColors(i, o))
  {
    TurnedOrientation(r, o);
    OrientedTurned(ORIGCOLORS[i], r, ORIENTATIONS[o]);
  }

  lemma TurnedKeepsShape(r: Face, a: Colors, b: Colors)
    requires SameShape(a, b)
    ensures SameShape(Turned(r, a), Turned(r, b))
  {
  }

  /** TURNED_POSITIONS[r][p] is the position whose shape a piece at position p takes on
      when it is turned clockwise about face r. */
  const TURNED_POSITIONS: seq<seq<Position>> := [
    [2, 4, 7, 1, 6, 0, 3, 5, 9, 11, 8, 10, 14, 16, 19, 13, 18, 12, 15, 17],
    [12, 8, 0, 15, 3, 17, 10, 5, 13, 1, 18, 6, 14, 9, 2, 16, 4, 19, 11, 7],
    [12, 13, 14, 8, 9, 0, 1, 2, 15, 16, 3, 4, 17, 18, 19, 10, 11, 5, 6, 7],
    [5, 6, 7, 10, 11, 17, 18, 19, 3, 4, 15, 16, 0, 1, 2, 8, 9, 12, 13, 14],
    [2, 9, 14, 4, 16, 7, 11, 19, 1, 13, 6, 18, 0, 8, 12, 3, 15, 5, 10, 17],
    [5, 3, 0, 6, 1, 7, 4, 2, 10, 8, 11, 9, 17, 15, 12, 18, 13, 19, 16, 14]
  ]

  /* TurnedShape below is one fact about the 120 entries of TURNED_POSITIONS, checked
     entry by entry; it is split into a lemma per face so that each stays within the
     verifier's resource limit, which a single lemma over the whole table exceeds. */

  lemma TurnedShapes0(p: Position)
    ensures SameShape(Turned(0, ORIGCOLORS[p]), ORIGCOLORS[TURNED_POSITIONS[0][p]])
  {
    if p == 0 {} else if p == 1 {} else if p == 2 {} else if p == 3 {} else if p == 4 {}
    else if p == 5 {} else if p == 6 {} else if p == 7 {} else if p == 8 {} else if p == 9 {}
    else if p == 10 {} else if p == 11 {} else if p == 12 {} else if p == 13 {}
    else if p == 14 {} else if p == 15 {} else if p == 16 {} else if p == 17 {}
    else if p == 18 {} else {}
  }

  lemma TurnedShapes1(p: Position)
    ensures SameShape(Turned(1, ORIGCOLORS[p]), ORIGCOLORS[TURNED_POSITIONS[1][p]])
  {
    if p == 0 {} else if p == 1 {} else if p == 2 {} else if p == 3 {} else if p == 4 {}
    else if p == 5 {} else if p == 6 {} else if p == 7 {} else if p == 8 {} else if p == 9 {}
    else if p == 10 {} else if p == 11 {} else if p == 12 {} else if p == 13 {}
    else if p == 14 {} else if p == 15 {} else if p == 16 {} else if p == 17 {}
    else if p == 18 {} else {}
  }

  lemma TurnedShapes2(p: Position)
    ensures SameShape(Turned(2, ORIGCOLORS[p]), ORIGCOLORS[TURNED_POSITIONS[2][p]])
  {
    if p == 0 {} else if p == 1 {} else if p == 2 {} else if p == 3 {} else if p == 4 {}
    else if p == 5 {} else if p == 6 {} else if p == 7 {} else if p == 8 {} else if p == 9 {}
    else if p == 10 {} else if p == 11 {} else if p == 12 {} else if p == 13 {}
    else if p == 14 {} else if p == 15 {} else if p == 16 {} else if p == 17 {}
    else if p == 18 {} else {}
  }

  lemma TurnedShapes3(p: Position)
    ensures SameShape(Turned(3, ORIGCOLORS[p]), ORIGCOLORS[TURNED_POSITIONS[3][p]])
  {
    if p == 0 {} else if p == 1 {} else if p == 2 {} else if p == 3 {} else if p == 4 {}
    else if p == 5 {} else if p == 6 {} else if p == 7 {} else if p == 8 {} else if p == 9 {}
    else if p == 10 {} else if p == 11 {} else if p == 12 {} else if p == 13 {}
    else if p == 14 {} else if p == 15 {} else if p == 16 {} else if p == 17 {}
    else if p == 18 {} else {}
  }

  lemma TurnedShapes4(p: Position)
    ensures SameShape(Turned(4, ORIGCOLORS[p]), ORIGCOLORS[TURNED_POSITIONS[4][p]])
  {
    if p == 0 {} else if p == 1 {} else if p == 2 {} else if p == 3 {} else if p == 4 {}
    else if p == 5 {} else if p == 6 {} else if p == 7 {} else if p == 8 {} else if p == 9 {}
    else if p == 10 {} else if p == 11 {} else if p == 12 {} else if p == 13 {}
    else if p == 14 {} else if p == 15 {} else if p == 16 {} else if p == 17 {}
    else if p == 18 {} else {}
  }

  lemma TurnedShapes5(p: Position)
    ensures SameShape(Turned(5, ORIGCOLORS[p]), ORIGCOLORS[TURNED_POSITIONS[5][p]])
  {
    if p == 0 {} else if p == 1 {} else if p == 2 {} else if p == 3 {} else if p == 4 {}
    else if p == 5 {} else if p == 6 {} else if p == 7 {} else if p == 8 {} else if p == 9 {}
    else if p == 10 {} else if p == 11 {} else if p == 12 {} else if p == 13 {}
    else if p == 14 {} else if p == 15 {} else if p == 16 {} else if p == 17 {}
    else if p == 18 {} else {}
  }

  /** Turning the reference colouring of position p about r gives the shape of position
      TURNED_POSITIONS[r][p]. */
  lemma TurnedShape(r: Face, p: Position)
    ensures |TURNED_POSITIONS[r]| == NMINICUBES
    ensures SameShape(Turned(r, ORIGCOLORS[p]), ORIGCOLORS[TURNED_POSITIONS[r][p]])
  {
    if r == 0 { TurnedShapes0(p); }
    else if r == 1 { TurnedShapes1(p); }
    else if r == 2 { TurnedShapes2(p); }
    else if r == 3 { TurnedShapes3(p); }
    else if r == 4 { TurnedShapes4(p); }
    else { TurnedShapes5(p); }
  }

  /** A quarter turn about r carries a piece found at position p to position
      TURNED_POSITIONS[r][p]. */
  lemma PiecePositionTurned(i: Position, r: Face, o: Orient)
    requires PiecePosition(i, o) != -1
    ensures |TURNED_POSITIONS[r]| == NMINICUBES
    ensures PiecePosition(i, TRANSFORMATIONS[r][o]) == TURNED_POSITIONS[r][PiecePosition(i, o)]
  {
    var p := PiecePosition(i, o);
    TurnedShape(r, p);
    TurnedKeepsShape(r, ORIGCOLORS[p], PieceColors(i, o));
    PieceColorsTurned(i, r, o);
    FindsShape(PieceColors(i, TRANSFORMATIONS[r][o]), TURNED_POSITIONS[r][p]);
  }

  // Every orientation is reached from orientation 0 by quarter turns: orientation o is
  // one turn about REACH_TURN[o] away from REACH_PARENT[o], which is nearer to 0.

  const REACH_DEPTH: seq<nat> := [0, 1, 2, 1, 3, 2, 1, 2, 2, 1, 2, 3, 2, 3, 2, 1, 1, 2, 3, 2, 2, 3, 2, 3]
  const REACH_PARENT: seq<Orient> := [0, 0, 3, 0, 2, 3, 0, 6, 3, 0, 9, 2, 16, 2, 3, 0, 0, 9, 2, 3, 9, 5, 16, 8]
  const REACH_TURN: seq<Face> := [0, 5, 0, 0, 2, 1, 3, 5, 2, 1, 5, 4, 4, 1, 3, 4, 2, 2, 3, 4, 1, 1, 2, 2]

  lemma Reached(o: Orient)
    requires o != 0
    ensures REACH_DEPTH[REACH_PARENT[o]] < REACH_DEPTH[o]
    ensures TRANSFORMATIONS[REACH_TURN[o]][REACH_PARENT[o]] == o
  {
    if o == 0 {} else if o == 1 {} else if o == 2 {} else if o == 3 {} else if o == 4 {}
    else if o == 5 {} else if o == 6 {} else if o == 7 {} else if o == 8 {} else if o == 9 {}
    else if o == 10 {} else if o == 11 {} else if o == 12 {} else if o == 13 {}
    else if o == 14 {} else if o == 15 {} else if o == 16 {} else if o == 17 {}
    else if o == 18 {} else if o == 19 {} else if o == 20 {} else if o == 21 {}
    else if o == 22 {} else {}
  }

  /** Looking up the position of any piece in any orientation never fails. */
  lemma PiecePositionFound(i: Position, o: Orient)
    ensures PiecePosition(i, o) != -1
    decreases REACH_DEPTH[o]
  {
    if o == 0 {
      PieceColorsIdentity(i);
      FindsReferencePositions(i);
    } else {
      Reached(o);
      PiecePositionFound(i, REACH_PARENT[o]);
      PiecePositionTurned(i, REACH_TURN[o], REACH_PARENT[o]);
    }
  }

  /** In orientation 0 every piece is found at its own position. */
  lemma PiecePositionIdentity(i: Position)
    ensures PiecePosition(i, 0) == i
  {
    PieceColorsIdentity(i);
    FindsReferencePositions(i);
  }
}
