/** The 24 orientations of a piece and how turning a piece about a face moves it from
    one orientation to another. An orientation lists, for each face of the cube, which
    face of the piece's reference colouring is now seen there. */
module Orientations {
  import opened Geometry

  const NORIENTS := 24
  const NROTATIONS := NFACES

  type Orient = o: int | 0 <= o < NORIENTS
  /** A row of ORIENTATIONS. */
  type FaceOrder = s: seq<Face> | |s| == NFACES witness [0, 1, 2, 3, 4, 5]
  /** A row of TRANSFORMATIONS. */
  type OrientMap = s: seq<Orient> | |s| == NORIENTS
    witness [0, 1, 2, 3, 4, 5, 6, 7, 8, 9, 10, 11, 12, 13, 14, 15, 16, 17, 18, 19, 20, 21, 22, 23]

  /** The orientation that shows face f on top and its a-th neighbour in front. */
  function OrientationOf(f: Face, a: int): (o: FaceOrder)
    requires 0 <= a < 4
    ensures o[0] == f && o[1] == ADJACENTS[f][a] && o[5] == OPPOSITES[f]
  {
    var adjacents := ADJACENTS[f];
    [f, adjacents[a], adjacents[(a + 1) % 4], adjacents[(a + 3) % 4], adjacents[(a + 2) % 4], OPPOSITES[f]]
  }

  /** The orientations, four for each face on top, in the order they are generated. */
  const ORIENTATIONS: seq<FaceOrder> := [
    [0, 1, 2, 3, 4, 5], [0, 2, 4, 1, 3, 5], [0, 4, 3, 2, 1, 5], [0, 3, 1, 4, 2, 5],
    [1, 0, 3, 2, 5, 4], [1, 3, 5, 0, 2, 4], [1, 5, 2, 3, 0, 4], [1, 2, 0, 5, 3, 4],
    [2, 0, 1, 4, 5, 3], [2, 1, 5, 0, 4, 3], [2, 5, 4, 1, 0, 3], [2, 4, 0, 5, 1, 3],
    [3, 0, 4, 1, 5, 2], [3, 4, 5, 0, 1, 2], [3, 5, 1, 4, 0, 2], [3, 1, 0, 5, 4, 2],
    [4, 0, 2, 3, 5, 1], [4, 2, 5, 0, 3, 1], [4, 5, 3, 2, 0, 1], [4, 3, 0, 5, 2, 1],
    [5, 1, 3, 2, 4, 0], [5, 3, 4, 1, 2, 0], [5, 4, 2, 3, 1, 0], [5, 2, 1, 4, 3, 0]
  ]

  /** Entry 4 f + a of the table is the orientation generated for top face f and
      neighbour a. */
  lemma OrientationsGenerated(f: Face, a: int)
    requires 0 <= a < 4
    ensures ORIENTATIONS[4 * f + a] == OrientationOf(f, a)
  {
    if a == 0 {
      if f == 0 {} else if f == 1 {} else if f == 2 {} else if f == 3 {} else if f == 4 {} else {}
    } else if a == 1 {
      if f == 0 {} else if f == 1 {} else if f == 2 {} else if f == 3 {} else if f == 4 {} else {}
    } else if a == 2 {
      if f == 0 {} else if f == 1 {} else if f == 2 {} else if f == 3 {} else if f == 4 {} else {}
    } else {
      if f == 0 {} else if f == 1 {} else if f == 2 {} else if f == 3 {} else if f == 4 {} else {}
    }
  }

  /** A rearrangement of the six faces. */
  predicate IsPermutation(s: seq<int>) {
    |s| == NFACES
    && (forall f :: 0 <= f < NFACES ==> 0 <= s[f] < NFACES)
    && (forall j, k :: 0 <= j < k < NFACES ==> s[j] != s[k])
  }

  lemma OrientationOfIsPermutation(f: Face, a: int)
    requires 0 <= a < 4
    ensures IsPermutation(OrientationOf(f, a))
  {
    AdjacentsOf(f);
    var n := ADJACENTS[f];
    assert n[0] != n[1] && n[0] != n[2] && n[0] != n[3] && n[1] != n[2] && n[1] != n[3] && n[2] != n[3];
    assert (a + 1) % 4 != a && (a + 2) % 4 != a && (a + 3) % 4 != a;
    assert (a + 1) % 4 != (a + 2) % 4 && (a + 1) % 4 != (a + 3) % 4 && (a + 2) % 4 != (a + 3) % 4;
  }

  /** The index that identifies an orientation by its top face and the position of its
      front face among the top face's neighbours. */
  function OrientKey(c: FaceOrder): int {
    var top: int := c[0];
    var adjacents := ADJACENTS[top];
    4 * top + (if c[1] == adjacents[0] then 0 else if c[1] == adjacents[1] then 1 else if c[1] == adjacents[2] then 2 else 3)
  }

  lemma OrientKeyOf(f: Face, a: int)
    requires 0 <= a < 4
    ensures OrientKey(OrientationOf(f, a)) == 4 * f + a
  {
    AdjacentsOf(f);
  }

  /** The table holds 24 pairwise distinct permutations of the faces, the first of them
      the identity. */
  lemma OrientationsArePermutations(i: Orient, j: Orient)
    ensures IsPermutation(ORIENTATIONS[i])
    ensures ORIENTATIONS[i] == ORIENTATIONS[j] ==> i == j
    ensures ORIENTATIONS[0] == [0, 1, 2, 3, 4, 5]
  {
    OrientationsGenerated(i / 4, i % 4);
    OrientationOfIsPermutation(i / 4, i % 4);
    OrientationsDistinct(i, j);
    assert ORIENTATIONS[0] == [0, 1, 2, 3, 4, 5];
  }

  /** Different entries of the table are different orientations: the top face and the
      front face identify an entry. */
  lemma OrientationsDistinct(i: Orient, j: Orient)
    ensures ORIENTATIONS[i] == ORIENTATIONS[j] ==> i == j
  {
    var fi, ai, fj, aj := i / 4, i % 4, j / 4, j % 4;
    OrientationsGenerated(fi, ai);
    OrientationsGenerated(fj, aj);
    OrientKeyOf(fi, ai);
    OrientKeyOf(fj, aj);
    assert i == 4 * fi + ai && j == 4 * fj + aj;
    if ORIENTATIONS[i] == ORIENTATIONS[j] {
      assert OrientKey(ORIENTATIONS[i]) == OrientKey(ORIENTATIONS[j]);
    }
  }

  /** The first orientation at or after `i` equal to `colors`, or -1 when there is none. */
  function FindOrientationFrom(colors: seq<int>, i: nat): (r: int)
    requires i <= NORIENTS
    ensures r == -1 || i <= r < NORIENTS
    ensures r != -1 ==> ORIENTATIONS[r] == colors
    ensures forall j :: i <= j < NORIENTS && (r == -1 || j < r) ==> ORIENTATIONS[j] != colors
    decreases NORIENTS - i
  {
    if i == NORIENTS then -1
    else if ORIENTATIONS[i] == colors then i
    else FindOrientationFrom(colors, i + 1)
  }

  /** The index of the orientation whose faces are `colors`, or -1 when no orientation is. */
  function FindOrientation(colors: Colors): (r: int)
    ensures r == -1 || 0 <= r < NORIENTS
    ensures r != -1 ==> ORIENTATIONS[r] == colors
    ensures r == -1 <==> forall j :: 0 <= j < NORIENTS ==> ORIENTATIONS[j] != colors
  {
    FindOrientationFrom(colors, 0)
  }

  /** Each orientation is found at its own index. */
  lemma FindsOrientation(i: Orient)
    ensures FindOrientation(ORIENTATIONS[i]) == i
  {
    var r := FindOrientation(ORIENTATIONS[i]);
    if r != -1 {
      OrientationsArePermutations(r, i);
    }
  }
  // Turning one piece.

  /** The colours of a piece after turning it clockwise about `face`: the colour on the
      last neighbour of the face goes to the first, and each other neighbour takes the
      colour of the one before it. */
  function Turned<T>(face: Face, c: seq<T>): (r: seq<T>)
    requires |c| == NFACES
    ensures |r| == NFACES
  {
    var a := ADJACENTS[face];
    c[a[0] := c[a[3]]][a[3] := c[a[2]]][a[2] := c[a[1]]][a[1] := c[a[0]]]
  }

  /** A clockwise turn about `face` moves the colour on each neighbour of `face` on to
      the next neighbour and keeps the colours on `face` and on its opposite. */
  lemma TurnedMoves<T>(face: Face, c: seq<T>)
    requires |c| == NFACES
    ensures forall k :: 0 <= k < 4 ==> Turned(face, c)[ADJACENTS[face][(k + 1) % 4]] == c[ADJACENTS[face][k]]
    ensures Turned(face, c)[face] == c[face] && Turned(face, c)[OPPOSITES[face]] == c[OPPOSITES[face]]
  {
    AdjacentsOf(face);
  }

  /** Four clockwise turns about the same face give the piece back unchanged. */
  lemma TurnedFourTimes<T>(face: Face, c: seq<T>)
    requires |c| == NFACES
    ensures Turned(face, Turned(face, Turned(face, Turned(face, c)))) == c
  {
    if face == 0 {} else if face == 1 {} else if face == 2 {} else if face == 3 {}
    else if face == 4 {} else {}
  }

  /** A clockwise turn about the opposite face undoes a clockwise turn about a face. */
  lemma TurnedOpposite<T>(face: Face, c: seq<T>)
    requires |c| == NFACES
    ensures Turned(OPPOSITES[face], Turned(face, c)) == c
  {
    if face == 0 {} else if face == 1 {} else if face == 2 {} else if face == 3 {}
    else if face == 4 {} else {}
  }

  /** For each turn r and orientation i, the orientation reached by turning a piece
      in orientation i clockwise about face r (the rows follow the turns). */
  const TRANSFORMATIONS: seq<OrientMap> := [
    [3, 0, 1, 2, 7, 4, 5, 6, 11, 8, 9, 10, 15, 12, 13, 14, 19, 16, 17, 18, 23, 20, 21, 22],
    [9, 17, 13, 5, 12, 21, 10, 1, 4, 20, 18, 2, 16, 22, 6, 0, 8, 23, 14, 3, 15, 19, 11, 7],
    [16, 12, 4, 8, 20, 9, 0, 15, 23, 17, 1, 7, 21, 5, 3, 19, 22, 13, 2, 11, 18, 10, 6, 14],
    [6, 10, 18, 14, 2, 13, 22, 11, 3, 5, 21, 19, 1, 17, 23, 7, 0, 9, 20, 15, 4, 12, 16, 8],
    [15, 7, 11, 19, 8, 3, 14, 23, 16, 0, 6, 22, 4, 2, 18, 20, 12, 1, 10, 21, 9, 5, 13, 17],
    [1, 2, 3, 0, 5, 6, 7, 4, 9, 10, 11, 8, 13, 14, 15, 12, 17, 18, 19, 16, 21, 22, 23, 20]
  ]

  /* TurnedOrientation below is one fact about the 144 entries of TRANSFORMATIONS, checked
     entry by entry. It is split into a lemma per face and half row so that each lemma
     stays within the verifier's resource limit: a single lemma over a whole row, let
     alone the whole table, exceeds it, because every case unfolds the literal tables. */

  lemma TurnedOrientations0Low(i: Orient)
    requires i < 12
    ensures Turned(0, ORIENTATIONS[i]) == ORIENTATIONS[TRANSFORMATIONS[0][i]]
  {
    if i == 0 {} else if i == 1 {} else if i == 2 {} else if i == 3 {} else if i == 4 {}
    else if i == 5 {} else if i == 6 {} else if i == 7 {} else if i == 8 {} else if i == 9 {}
    else if i == 10 {} else {}
  }

  lemma TurnedOrientations0High(i: Orient)
    requires 12 <= i
    ensures Turned(0, ORIENTATIONS[i]) == ORIENTATIONS[TRANSFORMATIONS[0][i]]
  {
    if i == 12 {} else if i == 13 {} else if i == 14 {} else if i == 15 {} else if i == 16 {}
    else if i == 17 {} else if i == 18 {} else if i == 19 {} else if i == 20 {}
    else if i == 21 {} else if i == 22 {} else {}
  }

  lemma TurnedOrientations1Low(i: Orient)
    requires i < 12
    ensures Turned(1, ORIENTATIONS[i]) == ORIENTATIONS[TRANSFORMATIONS[1][i]]
  {
    if i == 0 {} else if i == 1 {} else if i == 2 {} else if i == 3 {} else if i == 4 {}
    else if i == 5 {} else if i == 6 {} else if i == 7 {} else if i == 8 {} else if i == 9 {}
    else if i == 10 {} else {}
  }

  lemma TurnedOrientations1High(i: Orient)
    requires 12 <= i
    ensures Turned(1, ORIENTATIONS[i]) == ORIENTATIONS[TRANSFORMATIONS[1][i]]
  {
    if i == 12 {} else if i == 13 {} else if i == 14 {} else if i == 15 {} else if i == 16 {}
    else if i == 17 {} else if i == 18 {} else if i == 19 {} else if i == 20 {}
    else if i == 21 {} else if i == 22 {} else {}
  }

  lemma TurnedOrientations2Low(i: Orient)
    requires i < 12
    ensures Turned(2, ORIENTATIONS[i]) == ORIENTATIONS[TRANSFORMATIONS[2][i]]
  {
    if i == 0 {} else if i == 1 {} else if i == 2 {} else if i == 3 {} else if i == 4 {}
    else if i == 5 {} else if i == 6 {} else if i == 7 {} else if i == 8 {} else if i == 9 {}
    else if i == 10 {} else {}
  }

  lemma TurnedOrientations2High(i: Orient)
    requires 12 <= i
    ensures Turned(2, ORIENTATIONS[i]) == ORIENTATIONS[TRANSFORMATIONS[2][i]]
  {
    if i == 12 {} else if i == 13 {} else if i == 14 {} else if i == 15 {} else if i == 16 {}
    else if i == 17 {} else if i == 18 {} else if i == 19 {} else if i == 20 {}
    else if i == 21 {} else if i == 22 {} else {}
  }

  lemma TurnedOrientations3Low(i: Orient)
    requires i < 12
    ensures Turned(3, ORIENTATIONS[i]) == ORIENTATIONS[TRANSFORMATIONS[3][i]]
  {
    if i == 0 {} else if i == 1 {} else if i == 2 {} else if i == 3 {} else if i == 4 {}
    else if i == 5 {} else if i == 6 {} else if i == 7 {} else if i == 8 {} else if i == 9 {}
    else if i == 10 {} else {}
  }

  lemma TurnedOrientations3High(i: Orient)
    requires 12 <= i
    ensures Turned(3, ORIENTATIONS[i]) == ORIENTATIONS[TRANSFORMATIONS[3][i]]
  {
    if i == 12 {} else if i == 13 {} else if i == 14 {} else if i == 15 {} else if i == 16 {}
    else if i == 17 {} else if i == 18 {} else if i == 19 {} else if i == 20 {}
    else if i == 21 {} else if i == 22 {} else {}
  }

  lemma TurnedOrientations4Low(i: Orient)
    requires i < 12
    ensures Turned(4, ORIENTATIONS[i]) == ORIENTATIONS[TRANSFORMATIONS[4][i]]
  {
    if i == 0 {} else if i == 1 {} else if i == 2 {} else if i == 3 {} else if i == 4 {}
    else if i == 5 {} else if i == 6 {} else if i == 7 {} else if i == 8 {} else if i == 9 {}
    else if i == 10 {} else {}
  }

  lemma TurnedOrientations4High(i: Orient)
    requires 12 <= i
    ensures Turned(4, ORIENTATIONS[i]) == ORIENTATIONS[TRANSFORMATIONS[4][i]]
  {
    if i == 12 {} else if i == 13 {} else if i == 14 {} else if i == 15 {} else if i == 16 {}
    else if i == 17 {} else if i == 18 {} else if i == 19 {} else if i == 20 {}
    else if i == 21 {} else if i == 22 {} else {}
  }

  lemma TurnedOrientations5Low(i: Orient)
    requires i < 12
    ensures Turned(5, ORIENTATIONS[i]) == ORIENTATIONS[TRANSFORMATIONS[5][i]]
  {
    if i == 0 {} else if i == 1 {} else if i == 2 {} else if i == 3 {} else if i == 4 {}
    else if i == 5 {} else if i == 6 {} else if i == 7 {} else if i == 8 {} else if i == 9 {}
    else if i == 10 {} else {}
  }

  lemma TurnedOrientations5High(i: Orient)
    requires 12 <= i
    ensures Turned(5, ORIENTATIONS[i]) == ORIENTATIONS[TRANSFORMATIONS[5][i]]
  {
    if i == 12 {} else if i == 13 {} else if i == 14 {} else if i == 15 {} else if i == 16 {}
    else if i == 17 {} else if i == 18 {} else if i == 19 {} else if i == 20 {}
    else if i == 21 {} else if i == 22 {} else {}
  }

  /** Turning a piece in any orientation gives another orientation of the table, the
      one TRANSFORMATIONS names. */
  lemma TurnedOrientation(r: Face, i: Orient)
    ensures Turned(r, ORIENTATIONS[i]) == ORIENTATIONS[TRANSFORMATIONS[r][i]]
  {
    if r == 0 { if i < 12 { TurnedOrientations0Low(i); } else { TurnedOrientations0High(i); } }
    else if r == 1 { if i < 12 { TurnedOrientations1Low(i); } else { TurnedOrientations1High(i); } }
    else if r == 2 { if i < 12 { TurnedOrientations2Low(i); } else { TurnedOrientations2High(i); } }
    else if r == 3 { if i < 12 { TurnedOrientations3Low(i); } else { TurnedOrientations3High(i); } }
    else if r == 4 { if i < 12 { TurnedOrientations4Low(i); } else { TurnedOrientations4High(i); } }
    else { if i < 12 { TurnedOrientations5Low(i); } else { TurnedOrientations5High(i); } }
  }

  /** Looking up a turned orientation never fails, and it finds TRANSFORMATIONS[r][i]. */
  lemma TransformationFound(r: Face, i: Orient)
    ensures FindOrientation(Turned(r, ORIENTATIONS[i])) == TRANSFORMATIONS[r][i]
  {
    TurnedOrientation(r, i);
    FindsOrientation(TRANSFORMATIONS[r][i]);
  }

  /** The orientation reached from o after n steps of the table `tr`, such as n
      clockwise quarter turns about face r when tr is TRANSFORMATIONS[r]. */
  function Iterate(tr: OrientMap, n: nat, o: Orient): Orient {
    if n == 0 then o else tr[Iterate(tr, n - 1, o)]
  }

  lemma IterateAdd(tr: OrientMap, a: nat, b: nat, o: Orient)
    ensures Iterate(tr, a, Iterate(tr, b, o)) == Iterate(tr, a + b, o)
  {
    if a > 0 {
      IterateAdd(tr, a - 1, b, o);
    }
  }

  lemma IterateFour(tr: OrientMap, o: Orient)
    ensures Iterate(tr, 4, o) == tr[tr[tr[tr[o]]]]
  {
    assert Iterate(tr, 1, o) == tr[o];
    assert Iterate(tr, 2, o) == tr[tr[o]];
    assert Iterate(tr, 3, o) == tr[tr[tr[o]]];
  }

  /** A table that returns every orientation after four steps. */
  predicate OrderFour(tr: OrientMap) {
    forall o: Orient :: Iterate(tr, 4, o) == o
  }

  /** Steps of a table of order four count modulo 4. */
  lemma IterateMod(tr: OrientMap, n: nat, o: Orient)
    requires OrderFour(tr)
    ensures Iterate(tr, n, o) == Iterate(tr, n % 4, o)
  {
    if n >= 4 {
      IterateAdd(tr, n - 4, 4, o);
      IterateMod(tr, n - 4, o);
    }
  }

  /** Stepping back with the inverse of a table of order four is stepping forward
      the remaining number of times. */
  lemma IterateInverse(tr: OrientMap, inv: OrientMap, n: nat, o: Orient)
    requires OrderFour(tr)
    requires forall x: Orient :: inv[tr[x]] == x
    ensures Iterate(inv, n, o) == Iterate(tr, (-(n as int)) % 4, o)
  {
    if n > 0 {
      var m := (-(n as int)) % 4;
      var y := Iterate(tr, m, o);
      IterateInverse(tr, inv, n - 1, o);
      IterateMod(tr, m + 1, o);
      NegModStep(n);
      assert tr[y] == Iterate(inv, n - 1, o);
      assert inv[tr[y]] == y;
    }
  }

  lemma NegModStep(n: int)
    ensures ((-n) % 4 + 1) % 4 == (1 - n) % 4
  {
  }

  /** Four quarter turns about a face bring every orientation back. */
  lemma TransformationOrderFour(r: Face)
    ensures OrderFour(TRANSFORMATIONS[r])
  {
    forall o: Orient
      ensures Iterate(TRANSFORMATIONS[r], 4, o) == o
    {
      var tr := TRANSFORMATIONS[r];
      var o1 := tr[o];
      var o2 := tr[o1];
      var o3 := tr[o2];
      var o4 := tr[o3];
      IterateFour(tr, o);
      FourTurnsFaces(r, o, o1, o2, o3, o4);
      OrientationsArePermutations(o4, o);
    }
  }

  lemma FourTurnsFaces(r: Face, o: Orient, o1: Orient, o2: Orient, o3: Orient, o4: Orient)
    requires o1 == TRANSFORMATIONS[r][o] && o2 == TRANSFORMATIONS[r][o1]
    requires o3 == TRANSFORMATIONS[r][o2] && o4 == TRANSFORMATIONS[r][o3]
    ensures ORIENTATIONS[o4] == ORIENTATIONS[o]
  {
    var c := ORIENTATIONS[o];
    calc {
      ORIENTATIONS[o4];
      { TurnedOrientation(r, o3); }
      Turned(r, ORIENTATIONS[o3]);
      { TurnedOrientation(r, o2); }
      Turned(r, Turned(r, ORIENTATIONS[o2]));
      { TurnedOrientation(r, o1); }
      Turned(r, Turned(r, Turned(r, ORIENTATIONS[o1])));
      { TurnedOrientation(r, o); }
      Turned(r, Turned(r, Turned(r, Turned(r, c))));
      { TurnedFourTimes(r, c); }
      c;
    }
  }

  /** The table of the opposite face is the inverse of the table of a face. */
  lemma TransformationOppositeInverse(r: Face, o: Orient)
    ensures TRANSFORMATIONS[OPPOSITES[r]][TRANSFORMATIONS[r][o]] == o
    ensures TRANSFORMATIONS[r][TRANSFORMATIONS[OPPOSITES[r]][o]] == o
  {
    AdjacentsOf(r);
    OppositeUndoes(r, o);
    OppositeUndoes(OPPOSITES[r], o);
  }

  lemma OppositeUndoes(r: Face, o: Orient)
    ensures TRANSFORMATIONS[OPPOSITES[r]][TRANSFORMATIONS[r][o]] == o
  {
    var o1 := TRANSFORMATIONS[r][o];
    var o2 := TRANSFORMATIONS[OPPOSITES[r]][o1];
    TurnedOrientation(r, o);
    TurnedOrientation(OPPOSITES[r], o1);
    TurnedOpposite(r, ORIENTATIONS[o]);
    OrientationsArePermutations(o2, o);
  }

  /** Turning about the opposite face n times undoes n turns about face r. */
  lemma OppositeIterate(r: Face, n: nat, o: Orient)
    ensures Iterate(TRANSFORMATIONS[OPPOSITES[r]], n, o) == Iterate(TRANSFORMATIONS[r], (-(n as int)) % 4, o)
  {
    TransformationOrderFour(r);
    forall x: Orient
      ensures TRANSFORMATIONS[OPPOSITES[r]][TRANSFORMATIONS[r][x]] == x
    {
      TransformationOppositeInverse(r, x);
    }
    IterateInverse(TRANSFORMATIONS[r], TRANSFORMATIONS[OPPOSITES[r]], n, o);
  }
}
