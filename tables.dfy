/** The three tables the program builds when it starts, as arrays filled by the same
    loops: the reference colouring of every piece, the 24 orientations and the
    transformation of each orientation by a quarter turn about each face. Every builder
    is proved to produce the constant table of the same name, which the rest of the
    model reads. */
module Tables {
  import opened Geometry
  import opened Orientations

  /** Row i of a two-dimensional array. */
  function Row(a: array2<int>, i: int): (r: seq<int>)
    requires 0 <= i < a.Length0
    reads a
    ensures |r| == a.Length1
    ensures forall j :: 0 <= j < a.Length1 ==> r[j] == a[i, j]
  {
    seq(a.Length1, j requires 0 <= j < a.Length1 reads a => a[i, j])
  }

  /** The array holds the table `rows`, entry by entry. */
  predicate Holds(a: array2<int>, rows: seq<seq<int>>)
    reads a
  {
    a.Length0 == |rows|
    && (forall i :: 0 <= i < |rows| ==> |rows[i]| == a.Length1)
    && forall i, j :: 0 <= i < a.Length0 && 0 <= j < a.Length1 ==> a[i, j] == rows[i][j]
  }

  /** Turns a piece clockwise about `face`: the colour on each neighbour of the face
      moves on to the next neighbour in ADJACENTS order. */
  method RotateMinicube(face: Face, colors: array<int>)
    requires colors.Length == NFACES
    modifies colors
    ensures colors[..] == Turned(face, old(colors[..]))
  {
    var adjacents := ADJACENTS[face];
    var aux := colors[adjacents[0]];
    colors[adjacents[0]] := colors[adjacents[3]];
    colors[adjacents[3]] := colors[adjacents[2]];
    colors[adjacents[2]] := colors[adjacents[1]];
    colors[adjacents[1]] := aux;
  }

  /** Copies row i of the table `orig` into `dest`. */
  method CopyOrientation(dest: array<int>, orig: array2<int>, i: int)
    requires dest.Length == orig.Length1 == NFACES && 0 <= i < orig.Length0
    modifies dest
    ensures dest[..] == Row(orig, i)
  {
    for f := 0 to NFACES
      invariant forall g :: 0 <= g < f ==> dest[g] == orig[i, g]
    {
      dest[f] := orig[i, f];
    }
  }

  /** The first rows of a are the table `rows`. */
  predicate PrefixHolds(a: array2<int>, rows: seq<Colors>)
    reads a
  {
    |rows| <= a.Length0 && a.Length1 == NFACES
    && forall r, g :: 0 <= r < |rows| && 0 <= g < NFACES ==> a[r, g] == rows[r][g]
  }

  /** Writing one more row after a prefix extends the prefix by that row. */
  lemma RowAppended(a: array2<int>, rows: seq<Colors>, row: Colors)
    requires PrefixHolds(a, rows) && |rows| < a.Length0
    requires forall g :: 0 <= g < NFACES ==> a[|rows|, g] == row[g]
    ensures PrefixHolds(a, rows + [row])
  {
  }

  /** The rows of a two-dimensional array. */
  function Rows(a: array2<int>): (rows: seq<seq<int>>)
    reads a
    ensures |rows| == a.Length0
    ensures forall i :: 0 <= i < a.Length0 ==> rows[i] == Row(a, i)
  {
    seq(a.Length0, i requires 0 <= i < a.Length0 reads a => Row(a, i))
  }

  /** r is the first of the rows that equals c, or -1 when none does. */
  predicate FirstMatch(rows: seq<seq<int>>, c: seq<int>, r: int) {
    (r == -1 || 0 <= r < |rows|)
    && (r != -1 ==> rows[r] == c)
    && forall j :: 0 <= j < |rows| && (r == -1 || j < r) ==> rows[j] != c
  }

  /** r is the first of the rows with stickers on exactly the faces where c has them, or
      -1 when none has. */
  predicate FirstShape(rows: seq<seq<int>>, c: seq<int>, r: int) {
    (r == -1 || 0 <= r < |rows|)
    && (r != -1 ==> SameShape(rows[r], c))
    && forall j :: 0 <= j < |rows| && (r == -1 || j < r) ==> !SameShape(rows[j], c)
  }

  /** In the table of orientations, the first matching row is the one FindOrientation
      names. */
  lemma FoundOrientation(c: Colors, r: int)
    requires FirstMatch(ORIENTATIONS, c, r)
    ensures r == FindOrientation(c)
  {
    FirstFound(c, r);
  }

  /** An array that holds a table has that table as its rows. */
  lemma HoldsRows(a: array2<int>, rows: seq<seq<int>>)
    requires Holds(a, rows)
    ensures Rows(a) == rows
  {
    forall i | 0 <= i < |rows|
      ensures Row(a, i) == rows[i]
    {
    }
  }

  lemma FirstFound(c: Colors, r: int)
    requires r == -1 || 0 <= r < NORIENTS
    requires r != -1 ==> ORIENTATIONS[r] == c
    requires forall j :: 0 <= j < NORIENTS && (r == -1 || j < r) ==> ORIENTATIONS[j] != c
    ensures r == FindOrientation(c)
  {
    var k := FindOrientationFrom(c, 0);
  }

  /** In the table of reference colourings, the first row of the same shape is the
      position FindMinicubePosition names. */
  lemma FoundPosition(c: Colors, r: int)
    requires FirstShape(ORIGCOLORS, c, r)
    ensures r == FindMinicubePosition(c)
  {
    FirstShapeFound(c, r);
  }

  lemma FirstShapeFound(c: Colors, r: int)
    requires r == -1 || 0 <= r < NMINICUBES
    requires r != -1 ==> SameShape(ORIGCOLORS[r], c)
    requires forall j :: 0 <= j < NMINICUBES && (r == -1 || j < r) ==> !SameShape(ORIGCOLORS[j], c)
    ensures r == FindMinicubePosition(c)
  {
    var k := FindPositionFrom(c, 0);
  }

  /** A table whose every entry is the index of the orientation that turning the
      orientation of its column about the face of its row leads to is TRANSFORMATIONS. */
  lemma TransformationsBuilt(t: array2<int>, o: array2<int>)
    requires Holds(o, ORIENTATIONS) && o.Length1 == NFACES
    requires t.Length0 == NROTATIONS && t.Length1 == NORIENTS
    requires forall r, i :: 0 <= r < NROTATIONS && 0 <= i < NORIENTS ==> FirstMatch(Rows(o), Turned(r, Rows(o)[i]), t[r, i])
    ensures Holds(t, TRANSFORMATIONS)
  {
    HoldsRows(o, ORIENTATIONS);
    forall r, i | 0 <= r < NROTATIONS && 0 <= i < NORIENTS
      ensures t[r, i] == TRANSFORMATIONS[r][i]
    {
      FoundOrientation(Turned(r, ORIENTATIONS[i]), t[r, i]);
      TransformationFound(r, i);
    }
  }

  class Tables {
    /** ORIGCOLORS: the colour on each face of each piece of the solved cube. */
    const origColors: array2<int>
    /** ORIENTATIONS: for each orientation, the face of the reference colouring seen on
        each face of the cube. */
    const orientations: array2<int>
    /** TRANSFORMATIONS: the orientation a quarter turn about each face leads to. */
    const transformations: array2<int>

    /** The arrays are three separate tables of the program's sizes. */
    predicate Shaped() {
      origColors.Length0 == NMINICUBES && origColors.Length1 == NFACES
      && orientations.Length0 == NORIENTS && orientations.Length1 == NFACES
      && transformations.Length0 == NROTATIONS && transformations.Length1 == NORIENTS
      && origColors != orientations && orientations != transformations && origColors != transformations
    }

    /** All three tables are built. */
    predicate Built()
      reads origColors, orientations, transformations
    {
      Shaped() && Holds(origColors, ORIGCOLORS) && Holds(orientations, ORIENTATIONS)
      && Holds(transformations, TRANSFORMATIONS)
    }

    /** Allocates the tables and builds them in the order the program does. */
    constructor()
      ensures Built()
      ensures fresh(origColors) && fresh(orientations) && fresh(transformations)
    {
      origColors := new int[NMINICUBES, NFACES];
      orientations := new int[NORIENTS, NFACES];
      transformations := new int[NROTATIONS, NORIENTS];
      new;
      InitOriginalMinicubeColors();
      ReferenceColoringsScan();
      InitMinicubeOrientations();
      InitMinicubeTransformations();
      TransformationsBuilt(transformations, orientations);
    }

    /** Scans the 3 x 3 x 3 lattice with x varying fastest and gives the next row of the
        table to every cell with more than one coloured face: the corners and edges. */
    method InitOriginalMinicubeColors()
      requires Shaped()
      modifies origColors
      ensures PrefixHolds(origColors, LatticeScan(3))
    {
      var i := 0;
      ghost var kept: seq<Colors> := [];
      for z: nat := 0 to 3
        invariant kept == LatticeScan(z) && i == |kept| && PrefixHolds(origColors, kept)
      {
        for y: nat := 0 to 3
          invariant kept == LatticeScan(z) + LayerScan(y, z) && i == |kept| && PrefixHolds(origColors, kept)
        {
          ScanRowStarts(y, z);
          for x: nat := 0 to 3
            invariant kept == ScanBefore(x, y, z) && i == |kept| && PrefixHolds(origColors, kept)
          {
            ScanCellStep(x, y, z);
            ScanRoom(x, y, z);
            i := KeepCell(x, y, z, i, kept);
            kept := kept + Keep(x, y, z);
          }
          ScanRowEnds(y, z);
        }
        ScanLayerEnds(z);
      }
    }

    /** Gives cell (x, y, z) the next row of the table, row i, when it has more than
        one coloured face, and returns the index of the row after the last one used. */
    method KeepCell(x: int, y: int, z: int, i: int, ghost kept: seq<Colors>) returns (next: int)
      requires Shaped() && i == |kept| && |kept + Keep(x, y, z)| <= NMINICUBES
      requires PrefixHolds(origColors, kept)
      modifies origColors
      ensures next == |kept + Keep(x, y, z)| && PrefixHolds(origColors, kept + Keep(x, y, z))
    {
      next := i;
      var count := CountMinicubeColors(x, y, z);
      if count > 1 {
        SetMinicubeColors(i, x, y, z);
        RowAppended(origColors, kept, CellColors(x, y, z));
        next := i + 1;
      }
    }

    /** Writes into row i of the reference colourings the colour of every face of the
        cell (x, y, z), and nothing else. */
    method SetMinicubeColors(i: int, x: int, y: int, z: int)
      requires Shaped() && 0 <= i < NMINICUBES
      modifies origColors
      ensures forall f :: 0 <= f < NFACES ==> origColors[i, f] == CellColors(x, y, z)[f]
      ensures forall r, f :: 0 <= r < NMINICUBES && r != i && 0 <= f < NFACES ==> origColors[r, f] == old(origColors[r, f])
    {
      for f := 0 to NFACES
        invariant forall g :: 0 <= g < f ==> origColors[i, g] == InitColor(g, x, y, z)
        invariant forall r, g :: 0 <= r < NMINICUBES && r != i && 0 <= g < NFACES ==> origColors[r, g] == old(origColors[r, g])
      {
        origColors[i, f] := InitColor(f, x, y, z);
      }
      CellColorsAt(x, y, z);
    }

    /** Generates the orientations four per face on top: the top face f, then its a-th
        neighbour in front, the next two neighbours, the last one and the opposite face. */
    method InitMinicubeOrientations()
      requires Shaped()
      modifies orientations
      ensures Holds(orientations, ORIENTATIONS)
    {
      var i := 0;
      for f := 0 to NFACES
        invariant i == 4 * f
        invariant forall k, g :: 0 <= k < i && 0 <= g < NFACES ==> orientations[k, g] == OrientationOf(k / 4, k % 4)[g]
      {
        for a := 0 to 4
          invariant i == 4 * f + a
          invariant forall k, g :: 0 <= k < i && 0 <= g < NFACES ==> orientations[k, g] == OrientationOf(k / 4, k % 4)[g]
        {
          assert i / 4 == f && i % 4 == a;
          SetOrientation(i, f, a);
          i := i + 1;
        }
      }
      forall k | 0 <= k < NORIENTS
        ensures OrientationOf(k / 4, k % 4) == ORIENTATIONS[k]
      {
        OrientationsGenerated(k / 4, k % 4);
      }
    }

    /** Writes orientation i: face f on top and its a-th neighbour in front. */
    method SetOrientation(i: int, f: Face, a: int)
      requires Shaped() && 0 <= i < NORIENTS && 0 <= a < 4
      modifies orientations
      ensures forall g :: 0 <= g < NFACES ==> orientations[i, g] == OrientationOf(f, a)[g]
      ensures forall k, g :: 0 <= k < NORIENTS && k != i && 0 <= g < NFACES ==> orientations[k, g] == old(orientations[k, g])
    {
      var adjacents := ADJACENTS[f];
      orientations[i, 0] := f;
      orientations[i, 1] := adjacents[a];
      orientations[i, 2] := adjacents[(a + 1) % 4];
      orientations[i, 3] := adjacents[(a + 3) % 4];
      orientations[i, 4] := adjacents[(a + 2) % 4];
      orientations[i, 5] := OPPOSITES[f];
    }

    /** The index of the first orientation listed as `searched`, or -1 when none is. */
    method FindOrientation(searched: array<int>) returns (r: int)
      requires Shaped() && searched.Length == NFACES
      ensures FirstMatch(Rows(orientations), searched[..], r)
    {
      for i := 0 to NORIENTS
        invariant forall j :: 0 <= j < i ==> Row(orientations, j) != searched[..]
      {
        var found := true;
        for f := 0 to NFACES
          invariant found <==> forall g :: 0 <= g < f ==> orientations[i, g] == searched[g]
        {
          if orientations[i, f] != searched[f] {
            found := false;
            break;
          }
        }
        assert found <==> Row(orientations, i) == searched[..];
        if found {
          return i;
        }
      }
      return -1;
    }

    /** Fills the transformations: turns a copy of every orientation about every face
        and looks the result up among the orientations. */
    method InitMinicubeTransformations()
      requires Shaped()
      modifies transformations
      ensures forall r, i :: 0 <= r < NROTATIONS && 0 <= i < NORIENTS ==>
        FirstMatch(Rows(orientations), Turned(r, Rows(orientations)[i]), transformations[r, i])
    {
      var colors := new int[NFACES];
      for r := 0 to NROTATIONS
        invariant forall q, j :: 0 <= q < r && 0 <= j < NORIENTS ==>
          FirstMatch(Rows(orientations), Turned(q, Rows(orientations)[j]), transformations[q, j])
      {
        TransformRow(r, colors);
      }
    }

    /** Fills the transformations about face r. */
    method TransformRow(r: Face, colors: array<int>)
      requires Shaped() && colors.Length == NFACES
      modifies transformations, colors
      ensures forall j :: 0 <= j < NORIENTS ==>
        FirstMatch(Rows(orientations), Turned(r, Rows(orientations)[j]), transformations[r, j])
      ensures forall q, j :: 0 <= q < NROTATIONS && q != r && 0 <= j < NORIENTS ==>
        transformations[q, j] == old(transformations[q, j])
    {
      ghost var os := Rows(orientations);
      for i := 0 to NORIENTS
        invariant Rows(orientations) == os
        invariant forall j :: 0 <= j < i ==> FirstMatch(os, Turned(r, os[j]), transformations[r, j])
        invariant forall q, j :: 0 <= q < NROTATIONS && q != r && 0 <= j < NORIENTS ==>
          transformations[q, j] == old(transformations[q, j])
      {
        TransformOrientation(r, i, colors);
      }
    }

    /** Turns a copy of orientation i about face r and stores the index of the result. */
    method TransformOrientation(r: Face, i: int, colors: array<int>)
      requires Shaped() && 0 <= i < NORIENTS && colors.Length == NFACES
      modifies transformations, colors
      ensures FirstMatch(Rows(orientations), Turned(r, Rows(orientations)[i]), transformations[r, i])
      ensures forall q, j :: 0 <= q < NROTATIONS && 0 <= j < NORIENTS && (q, j) != (r, i) ==>
        transformations[q, j] == old(transformations[q, j])
    {
      CopyOrientation(colors, orientations, i);
      RotateMinicube(r, colors);
      var o := FindOrientation(colors);
      transformations[r, i] := o;
    }

    /** The first position whose reference colouring has stickers on exactly the faces
        where `colors` has them, or -1 when there is none. */
    method FindMinicubePosition(colors: array<int>) returns (r: int)
      requires Shaped() && colors.Length == NFACES
      ensures FirstShape(Rows(origColors), colors[..], r)
    {
      for i := 0 to NMINICUBES
        invariant forall j :: 0 <= j < i ==> !SameShape(Row(origColors, j), colors[..])
      {
        var found := true;
        for f := 0 to NFACES
          invariant found <==> forall g :: 0 <= g < f ==> (origColors[i, g] == EMPTY_COLOR <==> colors[g] == EMPTY_COLOR)
        {
          if origColors[i, f] == EMPTY_COLOR {
            if colors[f] != EMPTY_COLOR {
              found := false;
              break;
            }
          } else if colors[f] == EMPTY_COLOR {
            found := false;
            break;
          }
        }
        assert found <==> SameShape(Row(origColors, i), colors[..]);
        if found {
          return i;
        }
      }
      return -1;
    }
  }
}
