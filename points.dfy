/** Cube points: the code of twenty letters A to X, one per piece, that names the
    orientation of every piece, and the state it describes. */
module Points {
  import opened Wrappers
  import opened Geometry
  import opened Orientations
  import opened Pieces
  import opened CubeState

  /** A letter that names an orientation: 'A' for 0 up to 'X' for 23, the letter
      NORIENTS - 1 places after 'A'. */
  predicate IsOrientLetter(c: char) {
    'A' <= c <= 'X'
  }

  /** The orientations named by the first twenty letters of a cube point. */
  function DecodePoint(point: string): (orients: seq<int>)
    requires |point| >= NMINICUBES
    requires forall i :: 0 <= i < NMINICUBES ==> IsOrientLetter(point[i])
    ensures |orients| == NMINICUBES
    ensures forall i :: 0 <= i < NMINICUBES ==> 0 <= orients[i] < NORIENTS
    ensures forall i :: 0 <= i < NMINICUBES ==> orients[i] == point[i] as int - 'A' as int
  {
    seq(NMINICUBES, i requires 0 <= i < NMINICUBES => OrientOfLetter(point[i]))
  }

  /** The orientation a letter names. */
  function OrientOfLetter(c: char): (o: int)
    requires IsOrientLetter(c)
    ensures 0 <= o < NORIENTS
  {
    c as int - 'A' as int
  }

  /** The cube point that names these orientations. */
  function EncodePoint(orients: seq<int>): (point: string)
    requires |orients| == NMINICUBES
    requires forall i :: 0 <= i < NMINICUBES ==> 0 <= orients[i] < NORIENTS
    ensures |point| == NMINICUBES
    ensures forall i :: 0 <= i < NMINICUBES ==> IsOrientLetter(point[i])
    ensures forall i :: 0 <= i < NMINICUBES ==> point[i] as int == orients[i] + 'A' as int
  {
    seq(NMINICUBES, i requires 0 <= i < NMINICUBES => (orients[i] + 'A' as int) as char)
  }

  /** Decoding the code of some orientations gives those orientations back. */
  lemma DecodeEncode(orients: seq<int>)
    requires |orients| == NMINICUBES
    requires forall i :: 0 <= i < NMINICUBES ==> 0 <= orients[i] < NORIENTS
    ensures DecodePoint(EncodePoint(orients)) == orients
  {
  }

  /** Encoding the orientations of a cube point of twenty letters gives that point back. */
  lemma EncodeDecode(point: string)
    requires |point| == NMINICUBES
    requires forall i :: 0 <= i < NMINICUBES ==> IsOrientLetter(point[i])
    ensures EncodePoint(DecodePoint(point)) == point
  {
  }

  /** Where each piece sits in its orientation. */
  function Positions(orients: seq<int>): (ps: seq<int>)
    requires |orients| == NMINICUBES
    requires forall i :: 0 <= i < NMINICUBES ==> 0 <= orients[i] < NORIENTS
    ensures |ps| == NMINICUBES
    ensures forall i :: 0 <= i < NMINICUBES ==> ps[i] == PiecePositions()[i][orients[i]]
  {
    seq(NMINICUBES, i requires 0 <= i < NMINICUBES => PositionOf(i, orients[i]))
  }

  /** The piece at each position, for pieces that sit at the positions ps. */
  function Placement(ps: seq<int>): (b: seq<int>)
    requires |ps| == NMINICUBES
    ensures |b| == NMINICUBES
    ensures forall q :: 0 <= q < NMINICUBES ==> b[q] == IndexOf(ps, q)
  {
    seq(NMINICUBES, q requires 0 <= q < NMINICUBES => IndexOf(ps, q))
  }

  /** The set of the first k values of ps has k members when they are distinct. */
  lemma ImageSize(ps: seq<int>, k: nat)
    requires Distinct(ps) && k <= |ps|
    ensures |set i | 0 <= i < k :: ps[i]| == k
  {
    if k > 0 {
      ImageSize(ps, k - 1);
      var before := set i | 0 <= i < k - 1 :: ps[i];
      assert (set i | 0 <= i < k :: ps[i]) == before + {ps[k - 1]};
      assert ps[k - 1] !in before;
    }
  }

  /** n distinct numbers below n take every value below n. */
  lemma Pigeonhole(ps: seq<int>, q: int)
    requires Distinct(ps) && forall i :: 0 <= i < |ps| ==> 0 <= ps[i] < |ps|
    requires 0 <= q < |ps|
    ensures IndexOf(ps, q) != -1
  {
    var n := |ps|;
    var ids := seq(n, x => x);
    var image := set i | 0 <= i < n :: ps[i];
    var all := set x | 0 <= x < n :: ids[x];
    var others := all - {q};
    ImageSize(ps, n);
    ImageSize(ids, n);
    assert ids[q] == q && q in all;
    if IndexOf(ps, q) == -1 {
      forall j | 0 <= j < n
        ensures ps[j] in others
      {
        assert ids[ps[j]] == ps[j];
      }
      assert image <= others;
      SubsetSize(image, others);
      assert false;
    }
  }

  lemma SubsetSize(a: set<int>, b: set<int>)
    requires a <= b
    ensures |a| <= |b|
  {
    assert b == a + (b - a);
  }

  /** For distinct positions that fill the cube, Placement puts every piece at its
      position and is itself a placement of distinct pieces. */
  lemma PlacementInverse(ps: seq<int>)
    requires |ps| == NMINICUBES && Distinct(ps)
    requires forall i :: 0 <= i < NMINICUBES ==> 0 <= ps[i] < NMINICUBES
    ensures forall q :: 0 <= q < NMINICUBES ==> 0 <= Placement(ps)[q] < NMINICUBES
    ensures Distinct(Placement(ps))
    ensures forall i :: 0 <= i < NMINICUBES ==> Placement(ps)[ps[i]] == i
  {
    forall q | 0 <= q < NMINICUBES
      ensures 0 <= Placement(ps)[q] < NMINICUBES
    {
      Pigeonhole(ps, q);
    }
    forall i | 0 <= i < NMINICUBES
      ensures Placement(ps)[ps[i]] == i
    {
      var j := IndexOf(ps, ps[i]);
      assert j != -1 && ps[j] == ps[i];
    }
  }

  /** The state that the orientations of its pieces describe, or None when two pieces
      would share a position. */
  function CubeFromOrients(orients: seq<int>): (r: Option<CubePoint>)
    requires |orients| == NMINICUBES
    requires forall i :: 0 <= i < NMINICUBES ==> 0 <= orients[i] < NORIENTS
    ensures r.Some? <==> Distinct(Positions(orients))
    ensures r.Some? ==> r.value.orients == orients && Consistent(r.value)
  {
    var ps := Positions(orients);
    if Distinct(ps) then
      PlacementInverse(ps);
      Some(CubePoint(orients, Placement(ps)))
    else
      None
  }

  /** A consistent state is the one its orientations describe: its placement can be
      recovered from its orientations alone. */
  lemma Recovered(s: CubePoint)
    requires Consistent(s)
    ensures CubeFromOrients(s.orients) == Some(s)
  {
    var ps := Positions(s.orients);
    PlacementRecovered(s, ps);
  }

  /** A placement that puts every piece i at ps[i] is the Placement of ps. */
  lemma PlacementRecovered(s: CubePoint, ps: seq<int>)
    requires WellFormed(s) && |ps| == NMINICUBES
    requires forall i :: 0 <= i < NMINICUBES ==> 0 <= ps[i] < NMINICUBES && s.byPos[ps[i]] == i
    ensures Distinct(ps) && Placement(ps) == s.byPos
  {
    forall i, j | 0 <= i < j < NMINICUBES
      ensures ps[i] != ps[j]
    {
      assert s.byPos[ps[i]] == i && s.byPos[ps[j]] == j;
    }
    PlacementInverse(ps);
    forall q | 0 <= q < NMINICUBES
      ensures Placement(ps)[q] == s.byPos[q]
    {
      var i := Placement(ps)[q];
      assert ps[i] == q;
    }
  }

  /** The code printed for a state reached by turning faces, fed back as an initial
      cube point, restores that very state. */
  lemma PrintedPointRestores(s: CubePoint, f: Face, times: int)
    requires Consistent(s)
    ensures var r := RotateFace(s, f, times);
      CubeFromOrients(DecodePoint(EncodePoint(r.orients))) == Some(r)
  {
    var r := RotateFace(s, f, times);
    RotateFaceConsistent(s, f, times);
    DecodeEncode(r.orients);
    Recovered(r);
  }

  /** The cube point of twenty letters 'A' describes the solved cube: every piece in
      orientation 0 at its own position. */
  lemma SolvedPoint()
    ensures var zeros := seq(NMINICUBES, i => 0);
      DecodePoint(seq(NMINICUBES, i => 'A')) == zeros
      && CubeFromOrients(zeros) == Some(CubePoint(zeros, seq(NMINICUBES, q => q)))
  {
    var zeros := seq(NMINICUBES, i => 0);
    var ids := seq(NMINICUBES, q => q);
    var ps := Positions(zeros);
    forall i | 0 <= i < NMINICUBES
      ensures ps[i] == i
    {
      PiecePositionIdentity(i);
    }
    assert ps == ids;
    Recovered(CubePoint(zeros, ids));
  }
}
