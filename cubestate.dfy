/** The state of the cube as a value, and the laws of turning a face.

    The state records, for each piece, its orientation, and for each position, the piece
    that sits there. It is consistent when every piece sits at the position its
    orientation puts it at. */
module CubeState {
  import opened Wrappers
  import opened Geometry
  import opened Orientations
  import opened Pieces

  datatype CubePoint = CubePoint(orients: seq<int>, byPos: seq<int>)

  /** No value occurs twice. */
  predicate Distinct(b: seq<int>) {
    forall p, q :: 0 <= p < q < |b| ==> b[p] != b[q]
  }

  /** The first index at or after k at which q occurs in b, or -1 when there is none. */
  function IndexFrom(b: seq<int>, q: int, k: nat): (r: int)
    requires k <= |b|
    ensures r == -1 || k <= r < |b|
    ensures r != -1 ==> b[r] == q && forall j :: k <= j < r ==> b[j] != q
    ensures r == -1 ==> forall j :: k <= j < |b| ==> b[j] != q
    decreases |b| - k
  {
    if k == |b| then -1
    else if b[k] == q then k
    else IndexFrom(b, q, k + 1)
  }

  /** The first index at which q occurs in b, or -1 when it does not occur. */
  function IndexOf(b: seq<int>, q: int): (r: int)
    ensures r == -1 || 0 <= r < |b|
    ensures r != -1 ==> b[r] == q && forall j :: 0 <= j < r ==> b[j] != q
    ensures r == -1 <==> forall j :: 0 <= j < |b| ==> b[j] != q
  {
    IndexFrom(b, q, 0)
  }

  /** Orientations in range and a placement that puts distinct pieces at the positions. */
  predicate WellFormed(s: CubePoint) {
    |s.orients| == NMINICUBES && |s.byPos| == NMINICUBES
    && (forall i :: 0 <= i < NMINICUBES ==> 0 <= s.orients[i] < NORIENTS)
    && (forall q :: 0 <= q < NMINICUBES ==> 0 <= s.byPos[q] < NMINICUBES)
    && Distinct(s.byPos)
  }

  /** Position of piece i in orientation o, which is always found. */
  function PositionOf(i: Position, o: Orient): (p: Position)
    ensures p == PiecePosition(i, o)
  {
    PiecePositionFound(i, o);
    PiecePosition(i, o)
  }

  /** A row of a table of positions: where a piece sits in each orientation. */
  type PositionRow = s: seq<Position> | |s| == NORIENTS
    witness [0, 0, 0, 0, 0, 0, 0, 0, 0, 0, 0, 0, 0, 0, 0, 0, 0, 0, 0, 0, 0, 0, 0, 0]

  /** Where piece i sits in each orientation. */
  function PositionRowOf(i: Position): PositionRow {
    seq(NORIENTS, o requires 0 <= o < NORIENTS => PositionOf(i, o))
  }

  /** Where each piece sits in each orientation. */
  function PiecePositions(): (pt: seq<PositionRow>)
    ensures |pt| == NMINICUBES
  {
    seq(NMINICUBES, i requires 0 <= i < NMINICUBES => PositionRowOf(i))
  }

  /** Every piece sits at the position that the table `pt` gives for its orientation. */
  predicate ConsistentWith(s: CubePoint, pt: seq<PositionRow>) {
    WellFormed(s) && |pt| == NMINICUBES
    && forall i :: 0 <= i < NMINICUBES ==> s.byPos[pt[i][s.orients[i]]] == i
  }

  /** Every piece sits at the position its orientation puts it at. */
  predicate Consistent(s: CubePoint) {
    ConsistentWith(s, PiecePositions())
  }

  // Turning a face, for any eight distinct slots and any table of turns.

  /** The index of position q in `slots` at or after k, or -1 when it is not there. */
  function SlotFrom(slots: FaceSlots, q: int, k: nat): (r: int)
    requires k <= NMINICUBES_PER_FACE
    ensures r == -1 || k <= r < NMINICUBES_PER_FACE
    ensures r != -1 ==> slots[r] == q
    ensures r == -1 ==> forall j :: k <= j < NMINICUBES_PER_FACE ==> slots[j] != q
    decreases NMINICUBES_PER_FACE - k
  {
    if k == NMINICUBES_PER_FACE then -1
    else if slots[k] == q then k
    else SlotFrom(slots, q, k + 1)
  }

  /** The slot of position q, or -1 when q is not one of the slots. */
  function SlotOf(slots: FaceSlots, q: int): (r: int)
    ensures r == -1 || 0 <= r < NMINICUBES_PER_FACE
    ensures r != -1 ==> slots[r] == q
    ensures r == -1 <==> forall j :: 0 <= j < NMINICUBES_PER_FACE ==> slots[j] != q
  {
    SlotFrom(slots, q, 0)
  }

  lemma SlotOfSlot(slots: FaceSlots, k: int)
    requires Distinct(slots) && 0 <= k < NMINICUBES_PER_FACE
    ensures SlotOf(slots, slots[k]) == k
  {
  }

  /** The slot d steps further along the cycle of corners (slots 0 to 3) or of edges
      (slots 4 to 7) that slot k belongs to. */
  function CycleSlot(k: int, d: int): (r: int)
    requires 0 <= k < NMINICUBES_PER_FACE
    ensures 0 <= r < NMINICUBES_PER_FACE && (r < 4 <==> k < 4)
  {
    if k < 4 then (k + d) % 4 else 4 + (k - 4 + d) % 4
  }

  lemma ModAdd(x: int, a: int, b: int)
    ensures ((x + a) % 4 + b) % 4 == (x + a + b) % 4
  {
  }

  lemma CycleSlotAdd(k: int, a: int, b: int)
    requires 0 <= k < NMINICUBES_PER_FACE
    ensures CycleSlot(CycleSlot(k, a), b) == CycleSlot(k, a + b)
  {
    if k < 4 {
      ModAdd(k, a, b);
    } else {
      ModAdd(k - 4, a, b);
    }
  }

  lemma CycleSlotMod(k: int, d: int)
    requires 0 <= k < NMINICUBES_PER_FACE
    ensures CycleSlot(k, d) == CycleSlot(k, d % 4)
    ensures d % 4 == 0 ==> CycleSlot(k, d) == k
  {
  }

  lemma CycleSlotBack(k: int, t: int)
    requires 0 <= k < NMINICUBES_PER_FACE
    ensures CycleSlot(k, -t) == CycleSlot(k, -(t % 4))
  {
    var m := t / 4;
    assert -t == -(t % 4) - 4 * m;
    if k < 4 {
      ShiftMod(k - (t % 4), -m);
    } else {
      ShiftMod(k - 4 - (t % 4), -m);
    }
  }

  lemma ShiftMod(x: int, m: int)
    ensures (x + 4 * m) % 4 == x % 4
  {
  }

  lemma CycleSlotInjective(j: int, k: int, d: int)
    requires 0 <= j < NMINICUBES_PER_FACE && 0 <= k < NMINICUBES_PER_FACE
    requires CycleSlot(j, d) == CycleSlot(k, d)
    ensures j == k
  {
    CycleSlotAdd(j, d, -d);
    CycleSlotAdd(k, d, -d);
    CycleSlotMod(j, 0);
    CycleSlotMod(k, 0);
  }

  /** The placement after t clockwise quarter turns of a face: the piece on slot k moves
      on to slot CycleSlot(k, t), and positions that are not slots keep their piece. */
  function TurnPositions(b: seq<int>, slots: FaceSlots, t: int): (r: seq<int>)
    requires |b| == NMINICUBES
    ensures |r| == NMINICUBES
  {
    seq(NMINICUBES, q requires 0 <= q < NMINICUBES =>
      var k := SlotOf(slots, q);
      if k == -1 then b[q] else b[slots[CycleSlot(k, -t)]])
  }

  /** Piece i sits on one of the slots. */
  predicate OnFace(b: seq<int>, slots: FaceSlots, i: int)
    requires |b| == NMINICUBES
  {
    exists k :: 0 <= k < NMINICUBES_PER_FACE && b[slots[k]] == i
  }

  lemma TurnPositionsOnFace(b: seq<int>, slots: FaceSlots, t: int, k: int)
    requires |b| == NMINICUBES && Distinct(slots) && 0 <= k < NMINICUBES_PER_FACE
    ensures TurnPositions(b, slots, t)[slots[k]] == b[slots[CycleSlot(k, -t)]]
  {
    SlotOfSlot(slots, k);
  }

  /** Turning a face keeps a placement of distinct pieces a placement of distinct
      pieces. */
  lemma TurnPositionsPlacement(b: seq<int>, slots: FaceSlots, t: int)
    requires |b| == NMINICUBES && Distinct(b) && Distinct(slots)
    requires forall q :: 0 <= q < NMINICUBES ==> 0 <= b[q] < NMINICUBES
    ensures Distinct(TurnPositions(b, slots, t))
    ensures forall q :: 0 <= q < NMINICUBES ==> 0 <= TurnPositions(b, slots, t)[q] < NMINICUBES
  {
    var b' := TurnPositions(b, slots, t);
    forall p, q | 0 <= p < q < NMINICUBES
      ensures b'[p] != b'[q]
    {
      var j, k := SlotOf(slots, p), SlotOf(slots, q);
      var p' := if j == -1 then p else slots[CycleSlot(j, -t)];
      var q' := if k == -1 then q else slots[CycleSlot(k, -t)];
      assert b'[p] == b[p'] && b'[q] == b[q'];
      if j != -1 && k != -1 && p' == q' {
        CycleSlotInjective(j, k, -t);
      }
      assert p' != q';
    }
  }

  /** Turning a face keeps the same pieces on it. */
  lemma OnFaceTurned(b: seq<int>, slots: FaceSlots, t: int, i: int)
    requires |b| == NMINICUBES && Distinct(slots)
    ensures OnFace(TurnPositions(b, slots, t), slots, i) <==> OnFace(b, slots, i)
  {
    if OnFace(TurnPositions(b, slots, t), slots, i) {
      OnFaceBeforeTurn(b, slots, t, i);
    }
    if OnFace(b, slots, i) {
      OnFaceAfterTurn(b, slots, t, i);
    }
  }

  lemma OnFaceBeforeTurn(b: seq<int>, slots: FaceSlots, t: int, i: int)
    requires |b| == NMINICUBES && Distinct(slots)
    requires OnFace(TurnPositions(b, slots, t), slots, i)
    ensures OnFace(b, slots, i)
  {
    var k :| 0 <= k < NMINICUBES_PER_FACE && TurnPositions(b, slots, t)[slots[k]] == i;
    TurnPositionsOnFace(b, slots, t, k);
  }

  lemma OnFaceAfterTurn(b: seq<int>, slots: FaceSlots, t: int, i: int)
    requires |b| == NMINICUBES && Distinct(slots)
    requires OnFace(b, slots, i)
    ensures OnFace(TurnPositions(b, slots, t), slots, i)
  {
    var j :| 0 <= j < NMINICUBES_PER_FACE && b[slots[j]] == i;
    var k := CycleSlot(j, t);
    TurnPositionsOnFace(b, slots, t, k);
    CycleSlotAdd(j, t, -t);
    CycleSlotMod(j, 0);
    assert CycleSlot(k, -t) == j;
    assert TurnPositions(b, slots, t)[slots[k]] == i;
  }

  lemma TurnPositionsAdd(b: seq<int>, slots: FaceSlots, a: int, c: int)
    requires |b| == NMINICUBES && Distinct(slots)
    ensures TurnPositions(TurnPositions(b, slots, a), slots, c) == TurnPositions(b, slots, a + c)
  {
    forall q | 0 <= q < NMINICUBES
      ensures TurnPositions(TurnPositions(b, slots, a), slots, c)[q] == TurnPositions(b, slots, a + c)[q]
    {
      var k := SlotOf(slots, q);
      if k != -1 {
        TurnPositionsOnFace(TurnPositions(b, slots, a), slots, c, k);
        TurnPositionsOnFace(b, slots, a, CycleSlot(k, -c));
        CycleSlotAdd(k, -c, -a);
      }
    }
  }

  lemma TurnPositionsMod(b: seq<int>, slots: FaceSlots, t: int)
    requires |b| == NMINICUBES
    ensures TurnPositions(b, slots, t) == TurnPositions(b, slots, t % 4)
  {
    forall q | 0 <= q < NMINICUBES
      ensures TurnPositions(b, slots, t)[q] == TurnPositions(b, slots, t % 4)[q]
    {
      var k := SlotOf(slots, q);
      if k != -1 {
        CycleSlotBack(k, t);
      }
    }
  }

  lemma TurnPositionsWhole(b: seq<int>, slots: FaceSlots, t: int)
    requires |b| == NMINICUBES && t % 4 == 0
    ensures TurnPositions(b, slots, t) == b
  {
    forall q | 0 <= q < NMINICUBES
      ensures TurnPositions(b, slots, t)[q] == b[q]
    {
      var k := SlotOf(slots, q);
      if k != -1 {
        CycleSlotMod(k, -t);
      }
    }
  }

  /** The state after t clockwise quarter turns of the face with these slots and this
      table of turns: the pieces on the face move round it and each is turned t times. */
  function Rotated(s: CubePoint, slots: FaceSlots, tr: OrientMap, t: nat): (r: CubePoint)
    requires WellFormed(s) && Distinct(slots)
    ensures WellFormed(r)
  {
    TurnPositionsPlacement(s.byPos, slots, t);
    CubePoint(
      seq(NMINICUBES, i requires 0 <= i < NMINICUBES =>
        if OnFace(s.byPos, slots, i) then Iterate(tr, t, s.orients[i]) else s.orients[i]),
      TurnPositions(s.byPos, slots, t))
  }

  lemma RotatedAdd(s: CubePoint, slots: FaceSlots, tr: OrientMap, a: nat, c: nat, m: nat)
    requires WellFormed(s) && Distinct(slots) && OrderFour(tr) && m == (a + c) % 4
    ensures Rotated(Rotated(s, slots, tr, a), slots, tr, c) == Rotated(s, slots, tr, m)
  {
    var s1 := Rotated(s, slots, tr, a);
    var s2 := Rotated(s1, slots, tr, c);
    var s3 := Rotated(s, slots, tr, m);
    TurnPositionsAdd(s.byPos, slots, a, c);
    TurnPositionsMod(s.byPos, slots, a + c);
    forall i | 0 <= i < NMINICUBES
      ensures s2.orients[i] == s3.orients[i]
    {
      OnFaceTurned(s.byPos, slots, a, i);
      if OnFace(s.byPos, slots, i) {
        IterateAdd(tr, c, a, s.orients[i]);
        IterateMod(tr, c + a, s.orients[i]);
      }
    }
  }

  lemma RotatedModAdd(s: CubePoint, slots: FaceSlots, tr: OrientMap, a: int, c: int)
    requires WellFormed(s) && Distinct(slots) && OrderFour(tr)
    ensures Rotated(Rotated(s, slots, tr, a % 4), slots, tr, c % 4) == Rotated(s, slots, tr, (a + c) % 4)
  {
    assert (a % 4 + c % 4) % 4 == (a + c) % 4 by {
      ModAdd(a, 0, c % 4);
      ModAdd(c, 0, a);
    }
    RotatedAdd(s, slots, tr, a % 4, c % 4, (a + c) % 4);
  }

  /** No quarter turn changes nothing. */
  lemma RotatedZero(s: CubePoint, slots: FaceSlots, tr: OrientMap)
    requires WellFormed(s) && Distinct(slots)
    ensures Rotated(s, slots, tr, 0) == s
  {
    TurnPositionsWhole(s.byPos, slots, 0);
  }

  /** A table of turns that carries every piece from each slot to the next slot of its
      cycle, according to the table of positions `pt`. */
  predicate TurnMoves(slots: FaceSlots, tr: OrientMap, pt: seq<PositionRow>) {
    |pt| == NMINICUBES
    && forall i, o: Orient :: 0 <= i < NMINICUBES && SlotOf(slots, pt[i][o]) != -1 ==>
      pt[i][tr[o]] == slots[CycleSlot(SlotOf(slots, pt[i][o]), 1)]
  }

  lemma {:induction false} IteratedMoves(slots: FaceSlots, tr: OrientMap, pt: seq<PositionRow>, i: Position, o: Orient, k: int, n: nat)
    requires Distinct(slots) && TurnMoves(slots, tr, pt)
    requires 0 <= k < NMINICUBES_PER_FACE && pt[i][o] == slots[k]
    ensures pt[i][Iterate(tr, n, o)] == slots[CycleSlot(k, n)]
  {
    if n == 0 {
      CycleSlotMod(k, 0);
    } else {
      var p := Iterate(tr, n - 1, o);
      var k1 := CycleSlot(k, n - 1);
      IteratedMoves(slots, tr, pt, i, o, k, n - 1);
      SlotOfSlot(slots, k1);
      TurnMovesAt(slots, tr, pt, i, p, k1);
      CycleSlotAdd(k, n - 1, 1);
    }
  }

  /** One turn carries the piece i in orientation o from slot k to the next slot. */
  lemma TurnMovesAt(slots: FaceSlots, tr: OrientMap, pt: seq<PositionRow>, i: Position, o: Orient, k: int)
    requires TurnMoves(slots, tr, pt) && 0 <= k < NMINICUBES_PER_FACE && SlotOf(slots, pt[i][o]) == k
    ensures pt[i][tr[o]] == slots[CycleSlot(k, 1)]
  {
  }

  /** Turning a face keeps a consistent state consistent. */
  lemma RotatedConsistent(s: CubePoint, slots: FaceSlots, tr: OrientMap, pt: seq<PositionRow>, t: nat)
    requires ConsistentWith(s, pt) && Distinct(slots) && TurnMoves(slots, tr, pt)
    ensures ConsistentWith(Rotated(s, slots, tr, t), pt)
  {
    var s' := Rotated(s, slots, tr, t);
    forall i | 0 <= i < NMINICUBES
      ensures s'.byPos[pt[i][s'.orients[i]]] == i
    {
      RotatedConsistentAt(s, slots, tr, pt, t, i);
    }
  }

  /** After the turn, piece i still sits where its new orientation puts it. */
  lemma RotatedConsistentAt(s: CubePoint, slots: FaceSlots, tr: OrientMap, pt: seq<PositionRow>, t: nat, i: Position)
    requires ConsistentWith(s, pt) && Distinct(slots) && TurnMoves(slots, tr, pt)
    ensures var s' := Rotated(s, slots, tr, t); s'.byPos[pt[i][s'.orients[i]]] == i
  {
    var s' := Rotated(s, slots, tr, t);
    var o := s.orients[i];
    var q := pt[i][o];
    assert s.byPos[q] == i;
    if OnFace(s.byPos, slots, i) {
      var k :| 0 <= k < NMINICUBES_PER_FACE && s.byPos[slots[k]] == i;
      assert q == slots[k];
      assert s'.orients[i] == Iterate(tr, t, o);
      IteratedMoves(slots, tr, pt, i, o, k, t);
      var k' := CycleSlot(k, t);
      assert pt[i][s'.orients[i]] == slots[k'];
      TurnPositionsOnFace(s.byPos, slots, t, k');
      CycleSlotAdd(k, t, -(t as int));
      assert t + -(t as int) == 0;
      CycleSlotMod(k, 0);
      assert s'.byPos[slots[k']] == s.byPos[slots[k]];
    } else {
      assert s'.orients[i] == o;
      assert SlotOf(slots, q) == -1;
      assert s'.byPos[q] == s.byPos[q];
    }
  }

  /** Turning a piece about face f carries it from each slot of the face to the next
      slot of its cycle. */
  lemma SlotsTurn(f: Face, k: int)
    requires 0 <= k < NMINICUBES_PER_FACE
    ensures |TURNED_POSITIONS[f]| == NMINICUBES
    ensures TURNED_POSITIONS[f][POSITIONS_BY_FACE[f][k]] == POSITIONS_BY_FACE[f][CycleSlot(k, 1)]
  {
    if f == 0 {
      if k == 0 {} else if k == 1 {} else if k == 2 {} else if k == 3 {} else if k == 4 {}
      else if k == 5 {} else if k == 6 {} else {}
    } else if f == 1 {
      if k == 0 {} else if k == 1 {} else if k == 2 {} else if k == 3 {} else if k == 4 {}
      else if k == 5 {} else if k == 6 {} else {}
    } else if f == 2 {
      if k == 0 {} else if k == 1 {} else if k == 2 {} else if k == 3 {} else if k == 4 {}
      else if k == 5 {} else if k == 6 {} else {}
    } else if f == 3 {
      if k == 0 {} else if k == 1 {} else if k == 2 {} else if k == 3 {} else if k == 4 {}
      else if k == 5 {} else if k == 6 {} else {}
    } else if f == 4 {
      if k == 0 {} else if k == 1 {} else if k == 2 {} else if k == 3 {} else if k == 4 {}
      else if k == 5 {} else if k == 6 {} else {}
    } else {
      if k == 0 {} else if k == 1 {} else if k == 2 {} else if k == 3 {} else if k == 4 {}
      else if k == 5 {} else if k == 6 {} else {}
    }
  }

  /** The turn table of each face moves the pieces round the slots of that face. */
  lemma FaceTurnMoves(f: Face)
    ensures TurnMoves(POSITIONS_BY_FACE[f], TRANSFORMATIONS[f], PiecePositions())
  {
    var slots, tr, pt := POSITIONS_BY_FACE[f], TRANSFORMATIONS[f], PiecePositions();
    forall i, o: Orient | 0 <= i < NMINICUBES && SlotOf(slots, pt[i][o]) != -1
      ensures pt[i][tr[o]] == slots[CycleSlot(SlotOf(slots, pt[i][o]), 1)]
    {
      PiecePositionTurned(i, f, o);
      SlotsTurn(f, SlotOf(slots, pt[i][o]));
    }
  }

  // Turning the faces of the cube.

  /** The state after `times` clockwise quarter turns of face f, a negative number
      turning it the other way: only the net number of quarter turns modulo 4 counts. */
  function RotateFace(s: CubePoint, f: Face, times: int): (r: CubePoint)
    requires WellFormed(s)
    ensures WellFormed(r)
  {
    FaceSlotsDistinct(f);
    Rotated(s, POSITIONS_BY_FACE[f], TRANSFORMATIONS[f], times % 4)
  }

  /** Turning a face a times and then c times is turning it a + c times. */
  lemma RotateFaceAdd(s: CubePoint, f: Face, a: int, c: int)
    requires WellFormed(s)
    ensures RotateFace(RotateFace(s, f, a), f, c) == RotateFace(s, f, a + c)
  {
    FaceSlotsDistinct(f);
    TransformationOrderFour(f);
    RotatedModAdd(s, POSITIONS_BY_FACE[f], TRANSFORMATIONS[f], a, c);
  }

  /** A number of quarter turns that is a multiple of 4, zero among them, changes
      nothing. */
  lemma RotateFaceWhole(s: CubePoint, f: Face, times: int)
    requires WellFormed(s) && times % 4 == 0
    ensures RotateFace(s, f, times) == s
  {
    FaceSlotsDistinct(f);
    RotatedZero(s, POSITIONS_BY_FACE[f], TRANSFORMATIONS[f]);
  }

  /** Turning a face n times and then -n times restores the state. */
  lemma RotateFaceInverse(s: CubePoint, f: Face, n: int)
    requires WellFormed(s)
    ensures RotateFace(RotateFace(s, f, n), f, -n) == s
  {
    var back := RotateFace(RotateFace(s, f, n), f, -n);
    RotateFaceAdd(s, f, n, -n);
    assert back == RotateFace(s, f, n + -n);
    RotateFaceWhole(s, f, n + -n);
    assert RotateFace(s, f, n + -n) == s;
  }

  /** Four single clockwise quarter turns of a face restore the state. */
  lemma RotateFaceFourTimes(s: CubePoint, f: Face)
    requires WellFormed(s)
    ensures RotateFace(RotateFace(RotateFace(RotateFace(s, f, 1), f, 1), f, 1), f, 1) == s
  {
    RotateFaceAdd(s, f, 1, 1);
    RotateFaceAdd(RotateFace(s, f, 2), f, 1, 1);
    RotateFaceAdd(s, f, 2, 2);
    RotateFaceWhole(s, f, 4);
  }

  /** Turning face f moves only the pieces on its eight positions, keeps them on those
      positions, and turns only them. */
  lemma RotateFaceFrame(s: CubePoint, f: Face, times: int)
    requires WellFormed(s)
    ensures forall q :: 0 <= q < NMINICUBES && q !in POSITIONS_BY_FACE[f] ==>
      RotateFace(s, f, times).byPos[q] == s.byPos[q]
    ensures forall i :: 0 <= i < NMINICUBES ==>
      (OnFace(RotateFace(s, f, times).byPos, POSITIONS_BY_FACE[f], i) <==> OnFace(s.byPos, POSITIONS_BY_FACE[f], i))
    ensures forall i :: 0 <= i < NMINICUBES && !OnFace(s.byPos, POSITIONS_BY_FACE[f], i) ==>
      RotateFace(s, f, times).orients[i] == s.orients[i]
  {
    FaceSlotsDistinct(f);
    var slots := POSITIONS_BY_FACE[f];
    forall q | 0 <= q < NMINICUBES && q !in slots
      ensures RotateFace(s, f, times).byPos[q] == s.byPos[q]
    {
      assert SlotOf(slots, q) == -1;
    }
    forall i | 0 <= i < NMINICUBES
      ensures OnFace(RotateFace(s, f, times).byPos, slots, i) <==> OnFace(s.byPos, slots, i)
    {
      OnFaceTurned(s.byPos, slots, times % 4, i);
    }
  }

  /** Turning a face keeps every piece at the position its orientation puts it at. */
  lemma RotateFaceConsistent(s: CubePoint, f: Face, times: int)
    requires Consistent(s)
    ensures Consistent(RotateFace(s, f, times))
  {
    FaceSlotsDistinct(f);
    FaceTurnMoves(f);
    RotatedConsistent(s, POSITIONS_BY_FACE[f], TRANSFORMATIONS[f], PiecePositions(), times % 4);
  }

  /** The remainder of a division by 4 as C computes it: truncated toward zero, with the
      sign of the dividend. */
  function CRem4(x: int): (r: int)
    ensures -4 < r < 4 && (x - r) % 4 == 0
    ensures x >= 0 ==> r >= 0
    ensures x <= 0 ==> r <= 0
  {
    if x >= 0 then x % 4 else -((-x) % 4)
  }

  /** The number of quarter turns reduced to one of -2, -1, 0, 1, 2 with the same
      effect; a half turn keeps the sign of the request. */
  function ReduceTimes(times: int): (r: int)
    ensures -2 <= r <= 2
    ensures (times - r) % 4 == 0
    ensures r == 2 ==> times > 0
    ensures r == -2 ==> times < 0
  {
    var t := CRem4(times);
    if t == 3 then -1 else if t == -3 then 1 else t
  }

  /** Any number from -2 to 2 with the properties of the reduced count is the reduced
      count: the contract of ReduceTimes determines it. */
  lemma ReduceTimesUnique(times: int, r: int)
    requires -2 <= r <= 2 && (times - r) % 4 == 0
    requires r == 2 ==> times > 0
    requires r == -2 ==> times < 0
    ensures r == ReduceTimes(times)
  {
    var r' := ReduceTimes(times);
    assert (r - r') % 4 == 0 by {
      ModAdd(times - r', 0, -(times - r));
    }
  }

  /** Turning a face by the reduced count has the effect of the original count. */
  lemma RotateFaceReduced(s: CubePoint, f: Face, times: int)
    requires WellFormed(s)
    ensures RotateFace(s, f, ReduceTimes(times)) == RotateFace(s, f, times)
  {
    var r := ReduceTimes(times);
    assert r % 4 == times % 4 by {
      ModAdd(times - r, 0, r);
      ModAdd(r, 0, times - r);
    }
  }
}
