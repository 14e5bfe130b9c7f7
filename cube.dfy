/** The cube state as the program keeps it: an array with the orientation of every
    piece and an array with the piece at every position, set up from a cube point and
    changed in place by turning faces. */
module Cube {
  import opened Wrappers
  import opened Geometry
  import opened Orientations
  import opened Pieces
  import opened CubeState
  import opened Points

  /** The state held by the two arrays. */
  function StateOf(orients: array<int>, byPos: array<int>): CubePoint
    reads orients, byPos
  {
    CubePoint(orients[..], byPos[..])
  }

  /** Writes into newColors the colours of a piece with reference colouring orig in the
      orientation orient. */
  method ApplyOrientation(newColors: array<int>, orig: Colors, orient: FaceOrder)
    requires newColors.Length == NFACES
    modifies newColors
    ensures newColors[..] == Oriented(orig, orient)
  {
    for f := 0 to NFACES
      invariant forall g :: 0 <= g < f ==> newColors[g] == orig[orient[g]]
    {
      newColors[f] := orig[orient[f]];
    }
  }

  /** The first occurrence of q in b + [x]. */
  lemma IndexOfAppend(b: seq<int>, x: int, q: int)
    ensures IndexOf(b + [x], q) == if IndexOf(b, q) != -1 then IndexOf(b, q) else if x == q then |b| else -1
  {
    var r := IndexOf(b + [x], q);
    var c := b + [x];
    if IndexOf(b, q) != -1 {
      assert c[IndexOf(b, q)] == q;
    } else if x == q {
      assert c[|b|] == q;
    }
  }

  /** The piece at each position once the first k pieces of ps are placed, -1 where
      none of them sits. */
  function PartialPlacement(ps: seq<int>, k: nat): (b: seq<int>)
    requires k <= |ps|
    ensures |b| == NMINICUBES
    ensures forall q :: 0 <= q < NMINICUBES ==> b[q] == IndexOf(ps[..k], q)
  {
    seq(NMINICUBES, q requires 0 <= q < NMINICUBES => IndexOf(ps[..k], q))
  }

  /** Placing piece i at a free position keeps the placed positions distinct and sets
      just that position; finding it taken means two pieces share a position. */
  lemma PlacementStep(ps: seq<int>, i: nat)
    requires i < |ps| && 0 <= ps[i] < NMINICUBES && Distinct(ps[..i])
    ensures PartialPlacement(ps, i)[ps[i]] == -1 ==>
      Distinct(ps[..i + 1]) && PartialPlacement(ps, i + 1) == PartialPlacement(ps, i)[ps[i] := i]
    ensures PartialPlacement(ps, i)[ps[i]] != -1 ==> !Distinct(ps)
  {
    var b := PartialPlacement(ps, i);
    assert ps[..i + 1] == ps[..i] + [ps[i]];
    forall q | 0 <= q < NMINICUBES
      ensures PartialPlacement(ps, i + 1)[q] == if IndexOf(ps[..i], q) != -1 then b[q] else if ps[i] == q then i else -1
    {
      IndexOfAppend(ps[..i], ps[i], q);
    }
    if b[ps[i]] != -1 {
      var j := b[ps[i]];
      assert ps[j] == ps[i] && j < i;
    }
  }

  /** Piece i in orientation os[i] has the colours that lead the shape search to the
      position Positions gives it. */
  lemma PositionFound(os: seq<int>, i: Position)
    requires |os| == NMINICUBES && forall j :: 0 <= j < NMINICUBES ==> 0 <= os[j] < NORIENTS
    ensures Positions(os)[i] == FindMinicubePosition(Oriented(ORIGCOLORS[i], ORIENTATIONS[os[i]]))
  {
    assert PiecePositions()[i][os[i]] == PositionOf(i, os[i]);
  }

  /** Sets up the state from the first twenty letters of a cube point: every piece takes
      the orientation its letter names and is placed where that orientation puts it.
      Returns false when two pieces would share a position; the orientations are set
      either way. */
  method InitCubePoint(orients: array<int>, byPos: array<int>, point: string) returns (ok: bool)
    requires orients.Length == NMINICUBES && byPos.Length == NMINICUBES && orients != byPos
    requires |point| >= NMINICUBES && forall i :: 0 <= i < NMINICUBES ==> IsOrientLetter(point[i])
    modifies orients, byPos
    ensures orients[..] == DecodePoint(point)
    ensures ok <==> CubeFromOrients(DecodePoint(point)).Some?
    ensures ok ==> CubeFromOrients(DecodePoint(point)) == Some(StateOf(orients, byPos))
  {
    for i := 0 to NMINICUBES
      invariant forall j :: 0 <= j < i ==> orients[j] == OrientOfLetter(point[j]) && byPos[j] == -1
    {
      orients[i] := point[i] as int - 'A' as int;
      byPos[i] := -1;
    }
    ghost var os := orients[..];
    assert os == DecodePoint(point);
    ghost var ps := Positions(os);
    assert byPos[..] == PartialPlacement(ps, 0);
    var colors := new int[NFACES];
    for i := 0 to NMINICUBES
      invariant orients[..] == os
      invariant Distinct(ps[..i])
      invariant byPos[..] == PartialPlacement(ps, i)
    {
      ApplyOrientation(colors, ORIGCOLORS[i], ORIENTATIONS[orients[i]]);
      var pos := FindMinicubePosition(colors[..]);
      PositionFound(os, i);
      PlacementStep(ps, i);
      if byPos[pos] != -1 {
        ok := false;
        return;
      }
      byPos[pos] := i;
    }
    assert ps[..NMINICUBES] == ps;
    ok := true;
  }

  /** Position q is none of the four positions of a ring. */
  predicate OffRing(q: int, ring: seq<int>)
    requires |ring| == 4
  {
    q != ring[0] && q != ring[1] && q != ring[2] && q != ring[3]
  }

  /** Each of the four positions of the ring holds in b1 the piece that b holds at the
      position e steps further round the ring. */
  predicate RingShifted(b: seq<int>, b1: seq<int>, ring: seq<int>, e: int) {
    |ring| == 4 && |b| == |b1| && (forall k :: 0 <= k < 4 ==> 0 <= ring[k] < |b|)
    && b1[ring[0]] == b[ring[e % 4]] && b1[ring[1]] == b[ring[(1 + e) % 4]]
    && b1[ring[2]] == b[ring[(2 + e) % 4]] && b1[ring[3]] == b[ring[(3 + e) % 4]]
  }

  /** b1 is b with the pieces of the ring shifted by e positions and every other position
      left as it is. */
  predicate RingMoved(b: seq<int>, b1: seq<int>, ring: seq<int>, e: int) {
    RingShifted(b, b1, ring, e)
    && forall q :: 0 <= q < |b| && OffRing(q, ring) ==> b1[q] == b[q]
  }

  /** Moves the piece at each of the four positions to the next of them, the piece at
      the last going to the first: a clockwise quarter turn of one ring of a face. */
  method MoveMinicubes(mcByPos: array<int>, posarr: seq<int>)
    requires |posarr| == 4 && Distinct(posarr)
    requires forall k :: 0 <= k < 4 ==> 0 <= posarr[k] < mcByPos.Length
    modifies mcByPos
    ensures RingMoved(old(mcByPos[..]), mcByPos[..], posarr, 3)
  {
    var tmp := mcByPos[posarr[3]];
    mcByPos[posarr[3]] := mcByPos[posarr[2]];
    mcByPos[posarr[2]] := mcByPos[posarr[1]];
    mcByPos[posarr[1]] := mcByPos[posarr[0]];
    mcByPos[posarr[0]] := tmp;
  }

  /** Moves the piece at each of the four positions to the previous of them, the piece
      at the first going to the last: the reverse of MoveMinicubes. */
  method MoveMinicubesReverse(mcByPos: array<int>, posarr: seq<int>)
    requires |posarr| == 4 && Distinct(posarr)
    requires forall k :: 0 <= k < 4 ==> 0 <= posarr[k] < mcByPos.Length
    modifies mcByPos
    ensures RingMoved(old(mcByPos[..]), mcByPos[..], posarr, 1)
  {
    var tmp := mcByPos[posarr[0]];
    mcByPos[posarr[0]] := mcByPos[posarr[1]];
    mcByPos[posarr[1]] := mcByPos[posarr[2]];
    mcByPos[posarr[2]] := mcByPos[posarr[3]];
    mcByPos[posarr[3]] := tmp;
  }

  /** Moving the corner ring and then the edge ring of a face, each by the shift e, is a
      quarter turn t of the face: clockwise for e == 3, the other way for e == 1. */
  lemma RingMovesTurn(b: seq<int>, b1: seq<int>, b2: seq<int>, slots: FaceSlots, t: int, e: int)
    requires |b| == NMINICUBES && |b1| == NMINICUBES && |b2| == NMINICUBES && Distinct(slots)
    requires (t == 1 && e == 3) || (t == -1 && e == 1)
    requires RingMoved(b, b1, slots[..4], e) && RingMoved(b1, b2, slots[4..], e)
    ensures b2 == TurnPositions(b, slots, t)
  {
    forall q | 0 <= q < NMINICUBES
      ensures b2[q] == TurnPositions(b, slots, t)[q]
    {
      RingsMoveTurnAt(b, b1, b2, slots, t, e, q);
    }
  }

  /** The position q holds after both rings moved what the turn puts there. */
  lemma RingsMoveTurnAt(b: seq<int>, b1: seq<int>, b2: seq<int>, slots: FaceSlots, t: int, e: int, q: int)
    requires |b| == NMINICUBES && |b1| == NMINICUBES && |b2| == NMINICUBES && Distinct(slots)
    requires (t == 1 && e == 3) || (t == -1 && e == 1)
    requires RingMoved(b, b1, slots[..4], e) && RingMoved(b1, b2, slots[4..], e)
    requires 0 <= q < NMINICUBES
    ensures b2[q] == TurnPositions(b, slots, t)[q]
  {
    var k := SlotOf(slots, q);
    if k == -1 {
      OffBothRings(slots, q);
    } else if k < 4 {
      CornerMovesTurn(b, b1, b2, slots, t, e, k);
    } else {
      EdgeMovesTurn(b, b1, b2, slots, t, e, k);
    }
  }

  /** A corner slot holds after both rings moved what the turn puts there. */
  lemma CornerMovesTurn(b: seq<int>, b1: seq<int>, b2: seq<int>, slots: FaceSlots, t: int, e: int, k: int)
    requires |b| == NMINICUBES && |b1| == NMINICUBES && |b2| == NMINICUBES && Distinct(slots)
    requires (t == 1 && e == 3) || (t == -1 && e == 1)
    requires RingMoved(b, b1, slots[..4], e) && RingMoved(b1, b2, slots[4..], e)
    requires 0 <= k < 4
    ensures b2[slots[k]] == b[slots[CycleSlot(k, -t)]]
  {
    ShiftIsTurn(k, t, e);
    RingsApart(slots, k);
    assert slots[..4][k] == slots[k] && slots[..4][(k + e) % 4] == slots[(k + e) % 4];
  }

  /** An edge slot holds after both rings moved what the turn puts there. */
  lemma EdgeMovesTurn(b: seq<int>, b1: seq<int>, b2: seq<int>, slots: FaceSlots, t: int, e: int, k: int)
    requires |b| == NMINICUBES && |b1| == NMINICUBES && |b2| == NMINICUBES && Distinct(slots)
    requires (t == 1 && e == 3) || (t == -1 && e == 1)
    requires RingMoved(b, b1, slots[..4], e) && RingMoved(b1, b2, slots[4..], e)
    requires 4 <= k < NMINICUBES_PER_FACE
    ensures b2[slots[k]] == b[slots[CycleSlot(k, -t)]]
  {
    ShiftIsTurn(k, t, e);
    var j := (k - 4 + e) % 4;
    RingsApart(slots, 4 + j);
    assert slots[4..][k - 4] == slots[k] && slots[4..][j] == slots[4 + j];
    assert b2[slots[k]] == b1[slots[4 + j]];
  }

  /** A position on no slot of a face is off both of its rings. */
  lemma OffBothRings(slots: FaceSlots, q: int)
    requires SlotOf(slots, q) == -1
    ensures OffRing(q, slots[..4]) && OffRing(q, slots[4..])
  {
    assert slots[..4][0] == slots[0] && slots[..4][1] == slots[1] && slots[..4][2] == slots[2] && slots[..4][3] == slots[3];
    assert slots[4..][0] == slots[4] && slots[4..][1] == slots[5] && slots[4..][2] == slots[6] && slots[4..][3] == slots[7];
  }

  /** The slot k of a face is off the ring it does not belong to. */
  lemma RingsApart(slots: FaceSlots, k: int)
    requires Distinct(slots) && 0 <= k < NMINICUBES_PER_FACE
    ensures k < 4 ==> OffRing(slots[k], slots[4..])
    ensures k >= 4 ==> OffRing(slots[k], slots[..4])
  {
    assert slots[..4][0] == slots[0] && slots[..4][1] == slots[1] && slots[..4][2] == slots[2] && slots[..4][3] == slots[3];
    assert slots[4..][0] == slots[4] && slots[4..][1] == slots[5] && slots[4..][2] == slots[6] && slots[4..][3] == slots[7];
  }

  /** One more quarter turn t of both rings after m quarter turns makes m + t. */
  lemma QuarterStep(b0: seq<int>, b: seq<int>, b1: seq<int>, b2: seq<int>, slots: FaceSlots, m: int, t: int, e: int)
    requires |b0| == NMINICUBES && |b1| == NMINICUBES && |b2| == NMINICUBES && Distinct(slots)
    requires b == TurnPositions(b0, slots, m)
    requires (t == 1 && e == 3) || (t == -1 && e == 1)
    requires RingMoved(b, b1, slots[..4], e) && RingMoved(b1, b2, slots[4..], e)
    ensures b2 == TurnPositions(b0, slots, m + t)
  {
    RingMovesTurn(b, b1, b2, slots, t, e);
    TurnPositionsAdd(b0, slots, m, t);
  }

  lemma ShiftIsTurn(k: int, t: int, e: int)
    requires 0 <= k < NMINICUBES_PER_FACE && ((t == 1 && e == 3) || (t == -1 && e == 1))
    ensures CycleSlot(k, -t) == if k < 4 then (k + e) % 4 else 4 + (k - 4 + e) % 4
  {
  }

  /** The first phase of turning a face `times` quarter turns: both rings of the face are
      moved once per quarter turn, forward for a positive count and backward for a
      negative one. Each loop stands for a do-while loop of the program, which runs at
      least once because the count is not zero. */
  method MoveFaceRings(byPos: array<int>, posarr: FaceSlots, times: int)
    requires byPos.Length == NMINICUBES && Distinct(posarr) && times != 0
    modifies byPos
    ensures byPos[..] == TurnPositions(old(byPos[..]), posarr, times)
  {
    ghost var b0 := byPos[..];
    var corners, edges := posarr[..4], posarr[4..];
    assert Distinct(corners) && Distinct(edges);
    assert forall k :: 0 <= k < 4 ==> corners[k] == posarr[k] && edges[k] == posarr[4 + k];
    TurnPositionsWhole(b0, posarr, 0);
    if times > 0 {
      var n := times;
      ghost var done := 0;
      while n > 0
        invariant 0 <= n <= times && done == times - n
        invariant byPos[..] == TurnPositions(b0, posarr, done)
      {
        ghost var b := byPos[..];
        MoveMinicubes(byPos, corners);
        ghost var b1 := byPos[..];
        MoveMinicubes(byPos, edges);
        QuarterStep(b0, b, b1, byPos[..], posarr, done, 1, 3);
        n := n - 1;
        done := done + 1;
      }
    } else {
      var n := -times;
      ghost var done := 0;
      while n > 0
        invariant 0 <= n <= -times && done == n + times
        invariant byPos[..] == TurnPositions(b0, posarr, done)
      {
        ghost var b := byPos[..];
        MoveMinicubesReverse(byPos, corners);
        ghost var b1 := byPos[..];
        MoveMinicubesReverse(byPos, edges);
        QuarterStep(b0, b, b1, byPos[..], posarr, done, -1, 1);
        n := n - 1;
        done := done - 1;
      }
    }
  }

  /** Piece i sits on one of the first p slots. */
  predicate OnSlots(b: seq<int>, slots: FaceSlots, p: int, i: int)
    requires |b| == NMINICUBES && p <= NMINICUBES_PER_FACE
  {
    exists k :: 0 <= k < p && b[slots[k]] == i
  }

  /** The second phase of turning a face: every piece on the face is stepped t times
      through the table of turns `transform`, once per quarter turn, each loop standing
      for a do-while loop of the program. */
  method TurnFacePieces(orients: array<int>, byPos: array<int>, posarr: FaceSlots, transform: OrientMap, t: nat)
    requires orients.Length == NMINICUBES && byPos.Length == NMINICUBES && orients != byPos
    requires Distinct(posarr) && Distinct(byPos[..])
    requires forall q :: 0 <= q < NMINICUBES ==> 0 <= byPos[q] < NMINICUBES
    requires forall i :: 0 <= i < NMINICUBES ==> 0 <= orients[i] < NORIENTS
    modifies orients
    ensures forall i :: 0 <= i < NMINICUBES ==>
      orients[i] == if OnFace(byPos[..], posarr, i) then Iterate(transform, t, old(orients[i])) else old(orients[i])
  {
    ghost var os := orients[..];
    ghost var b := byPos[..];
    for p := 0 to NMINICUBES_PER_FACE
      invariant forall i :: 0 <= i < NMINICUBES ==>
        orients[i] == if OnSlots(b, posarr, p, i) then Iterate(transform, t, os[i]) else os[i]
    {
      var i := byPos[posarr[p]];
      assert !OnSlots(b, posarr, p, i);
      ghost var before := orients[..];
      var n := t;
      while n > 0
        invariant 0 <= n <= t
        invariant orients[i] == Iterate(transform, t - n, os[i])
        invariant forall j :: 0 <= j < NMINICUBES && j != i ==> orients[j] == before[j]
      {
        orients[i] := transform[orients[i]];
        n := n - 1;
      }
      forall j | 0 <= j < NMINICUBES
        ensures OnSlots(b, posarr, p + 1, j) <==> OnSlots(b, posarr, p, j) || j == i
      {
      }
    }
    forall i | 0 <= i < NMINICUBES
      ensures OnSlots(b, posarr, NMINICUBES_PER_FACE, i) <==> OnFace(b, posarr, i)
    {
    }
  }

  /** The state the two phases of a face turn leave: the placement turned by `times`, and
      every piece on the face stepped t times through the table tr, clockwise about the
      face for a positive count and about the opposite face for a negative one. */
  lemma TurnPhases(s: CubePoint, face: Face, times: int, tr: OrientMap, t: nat, os: seq<int>, b: seq<int>)
    requires WellFormed(s)
    requires (times > 0 && t == times && tr == TRANSFORMATIONS[face])
      || (times < 0 && t == -times && tr == TRANSFORMATIONS[OPPOSITES[face]])
    requires b == TurnPositions(s.byPos, POSITIONS_BY_FACE[face], times)
    requires |os| == NMINICUBES
    requires forall i :: 0 <= i < NMINICUBES ==>
      os[i] == if OnFace(b, POSITIONS_BY_FACE[face], i) then Iterate(tr, t, s.orients[i]) else s.orients[i]
    ensures CubePoint(os, b) == RotateFace(s, face, times)
  {
    var slots := POSITIONS_BY_FACE[face];
    FaceSlotsDistinct(face);
    TransformationOrderFour(face);
    TurnPositionsMod(s.byPos, slots, times);
    var r := RotateFace(s, face, times);
    forall i | 0 <= i < NMINICUBES
      ensures os[i] == r.orients[i]
    {
      OnFaceTurned(s.byPos, slots, times % 4, i);
      if times > 0 {
        IterateMod(tr, t, s.orients[i]);
      } else {
        OppositeIterate(face, t, s.orients[i]);
      }
    }
  }

  /** Turns a face `times` quarter turns clockwise, or anticlockwise when `times` is
      negative: first the pieces on the face move round it, then each of them turns. */
  method RotateCubeFace(face: Face, times: int, orients: array<int>, byPos: array<int>)
    requires orients.Length == NMINICUBES && byPos.Length == NMINICUBES && orients != byPos
    requires WellFormed(StateOf(orients, byPos))
    modifies orients, byPos
    ensures StateOf(orients, byPos) == RotateFace(old(StateOf(orients, byPos)), face, times)
  {
    ghost var s := StateOf(orients, byPos);
    if times == 0 {
      RotateFaceWhole(s, face, 0);
      return;
    }
    var posarr := POSITIONS_BY_FACE[face];
    FaceSlotsDistinct(face);
    var t: nat;
    var transform: OrientMap;
    MoveFaceRings(byPos, posarr, times);
    if times > 0 {
      t := times;
      transform := TRANSFORMATIONS[face];
    } else {
      t := -times;
      transform := TRANSFORMATIONS[OPPOSITES[face]];
    }
    TurnPositionsPlacement(s.byPos, posarr, times);
    TurnFacePieces(orients, byPos, posarr, transform, t);
    TurnPhases(s, face, times, transform, t, orients[..], byPos[..]);
  }

  /** The cube point the program prints for the orientations: one letter per piece. */
  method CubePointChars(orients: array<int>) returns (chars: string)
    requires orients.Length == NMINICUBES
    requires forall i :: 0 <= i < NMINICUBES ==> 0 <= orients[i] < NORIENTS
    ensures chars == EncodePoint(orients[..])
  {
    chars := [];
    for i := 0 to NMINICUBES
      invariant chars == EncodePoint(orients[..])[..i]
    {
      chars := chars + [(orients[i] + 'A' as int) as char];
    }
  }
}
