# A verified model of the core of `rubik.c`

`rubik.c` draws a Rubik's Cube in ASCII. The user turns its faces by typing the label of a face
(by default the digits `1`–`6`). Internally the cube is twenty movable pieces (8 corners and 12
edges), and each piece is in one of 24 orientations. The state is two arrays:

- the orientation of every piece, indexed by piece;
- the piece at every position, indexed by position.

A *cube point* is the twenty-letter code `A`–`X` that names the orientations. One letter per
piece is enough to rebuild the whole state: where a piece sits follows from how it is turned.

This project models the part of the program that does the work:

- the constant tables of the cube's geometry;
- the three tables the program builds at start-up;
- setting up a state from a cube point;
- turning a face;
- the label and argument checks;
- the reader that turns typed keys into face turns.

It then proves what these promise.

## Layout

| module (file) | models |
|---|---|
| `Wrappers` (`wrappers.dfy`) | `Option`, for searches that may find nothing |
| `Geometry` (`geometry.dfy`) | ADJACENTS, OPPOSITES, POSITIONS_BY_FACE, `init_color`, `count_minicube_colors`, the lattice scan that defines ORIGCOLORS, `find_minicube_position` |
| `Orientations` (`orientations.dfy`) | the ORIENTATIONS generator formula and table, `rotate_minicube` as a function on colourings, `find_orientation`, the TRANSFORMATIONS table and its group laws |
| `Pieces` (`pieces.dfy`) | the colours a piece shows in an orientation (`apply_orientation`), and where that puts the piece |
| `CubeState` (`cubestate.dfy`) | the cube state as a value, the closed form of a face turn and its laws, `reduce_times` |
| `Points` (`points.dfy`) | cube-point letters, decoding and encoding them, and the state a cube point describes |
| `Cube` (`cube.dfy`) | the imperative state on two arrays: `init_cube_point`, `move_minicubes(_reverse)`, `rotate_cube_face`, the letters `print_cube_point` writes |
| `Tables` (`tables.dfy`) | the start-up builders over two-dimensional arrays: `init_original_minicube_colors`, `init_minicube_orientations`, `init_minicube_transformations`, with `rotate_minicube`, `copy_orientation`, `find_orientation`, `find_minicube_position` on arrays |
| `Labels` (`labels.dfy`) | `color_to_char`, `char_to_color`, `valid_cube_point_chars`, `valid_color_chars` |
| `Parser` (`parser.dfy`) | the input state `ST`, `init_input_state`, `process_input_char`, as a pure step function and as a class that follows the C code |

## How the model is organised

**Tables.** The three tables the C code fills at run time are Dafny constants here.

- Class `Tables.Tables` runs the program's own nested loops over `array2` fields. Its methods are
  proved to fill exactly those constants.
- `ORIGCOLORS` is also proved equal to the scan of the 3×3×3 lattice that defines it.
- `ORIENTATIONS` is also proved equal to the ADJACENTS formula.
- `TRANSFORMATIONS` is also proved equal to "rotate, then look the result up". There is one row
  per turned face, and the table is the first match found.

The rest of the model reads the constants.

**Turning a face.** `CubeState.RotateFace(s, f, times)` is the specification of a face turn.

- It turns the eight slots of face `f` by the net number of quarter turns, `times % 4`, and moves
  pieces round the corner ring and the edge ring.
- Each piece on the face steps that many times through `TRANSFORMATIONS[f]`.

`Cube.RotateCubeFace` follows the C loops on arrays: do-while loops of
`move_minicubes(_reverse)`, then the orientation loop, on `TRANSFORMATIONS[f]` or that of the
opposite face. It is proved to leave exactly `RotateFace(old state, f, times)`.

**Reading keys.** `Parser.Step` is the key reader as a pure function. `Parser.InputReader.ProcessInputChar`
keeps the C code's fields and its `action` bit set, and is proved to change its fields exactly as
`Step` does.

## Model

| member | source | states |
|---|---|---|
| Geometry.AdjacentsOf | rubik.c:52-60 | a face's four neighbours are distinct, and none is the face or its opposite; OPPOSITES is an involution without fixed points; neighbours two steps apart are opposite faces |
| Geometry.FaceSlotsDistinct | rubik.c:104-111 | the eight slots listed for each face are eight different positions |
| Geometry.InitColorOnBoundary | rubik.c:114-124 | a cell's face has a colour exactly when the cell lies on that face's boundary plane; the colour is then the face itself, and otherwise EMPTY_COLOR |
| Geometry.InitColor | rubik.c:114-124 | the result is EMPTY_COLOR or the face asked for |
| Geometry.ColoredFacesAreExtremes | rubik.c:140-149 | the number of coloured faces of a cell is the number of its coordinates that are 0 or 2 |
| Geometry.CountMinicubeColors | rubik.c:140-149 | the counting loop returns the number of coordinates of the cell that are 0 or 2 |
| Geometry.ReferenceColoringsScan | rubik.c:151-170 | scanning the lattice in x, y, z order and keeping the cells with more than one colour gives exactly the twenty rows of ORIGCOLORS |
| Geometry.FindMinicubePosition | rubik.c:175-197 | the result is -1 or the first piece whose reference colouring has stickers on exactly the faces where the argument has them; no earlier piece matches, and -1 means none does |
| Geometry.ReferenceShapesDistinct | rubik.c:172-197 | no two pieces have stickers on the same set of faces, so a position is identified by its shape |
| Geometry.FindsShape | rubik.c:175-197 | a colouring with the shape of piece p's reference colouring is found at position p |
| Geometry.FindsReferencePositions | rubik.c:175-197 | each reference colouring is found at its own position |
| Orientations.OrientationsGenerated | rubik.c:217-233 | entry 4f + a of ORIENTATIONS is the orientation generated with f on top and neighbour a in front |
| Orientations.OrientationOf | rubik.c:221-231 | the orientation generated for top face f and neighbour a shows f on top, its a-th neighbour in front and its opposite at the bottom |
| Orientations.OrientationOfIsPermutation | rubik.c:221-231 | every generated orientation is a permutation of the six faces |
| Orientations.OrientationsArePermutations | rubik.c:217-233 | the 24 orientations are pairwise different permutations of the faces, and the first one is the identity |
| Orientations.OrientationsDistinct | rubik.c:217-233 | two entries of ORIENTATIONS are equal only when they are the same entry |
| Orientations.FindOrientation | rubik.c:314-331 | the result is -1 exactly when no orientation equals the colours; otherwise it is an index whose orientation equals them |
| Orientations.FindsOrientation | rubik.c:314-331 | looking up orientation i gives i back |
| Orientations.Turned | rubik.c:296-303 | a turned colouring still has one entry per face; what the turn moves where is stated by TurnedMoves |
| Orientations.TurnedMoves | rubik.c:296-303 | a clockwise turn about a face carries the colour on its k-th neighbour to the (k+1)-th, and keeps the face itself and its opposite |
| Orientations.TurnedFourTimes | rubik.c:296-303 | four turns about the same face restore the colouring |
| Orientations.TurnedOpposite | rubik.c:333-336 | turning about the opposite face undoes a turn about a face |
| Orientations.TurnedOrientation | rubik.c:337-348 | turning orientation i about face r gives orientation TRANSFORMATIONS[r][i] |
| Orientations.TransformationFound | rubik.c:342-346 | TRANSFORMATIONS[r][i] is what looking up the turned orientation finds, so no entry is -1 |
| Orientations.TransformationOrderFour | rubik.c:337-348 | each row of TRANSFORMATIONS applied four times is the identity |
| Orientations.TransformationOppositeInverse | rubik.c:333-336 | the row of the opposite face is the inverse of each row, in both orders |
| Orientations.OppositeIterate | rubik.c:519-526 | n steps through the opposite face's row are -n steps, modulo 4, through the face's own row |
| Orientations.IterateMod | rubik.c:529-532 | with a table of order four, only the number of steps modulo 4 counts |
| Pieces.PieceColorsIdentity | rubik.c:373-379 | a piece in orientation 0 shows its reference colours |
| Pieces.Oriented | rubik.c:373-379 | face f of the oriented piece shows the reference colour of face orient[f] |
| Pieces.PieceColorsTurned | rubik.c:337-348 | the colours a piece shows after one transformation are its former colours turned about the face |
| Pieces.PiecePositionFound | rubik.c:391-394 | in every orientation a piece's colours are found at some position, never -1 |
| Pieces.PiecePositionIdentity | rubik.c:391-394 | in orientation 0 every piece is found at its own position |
| Pieces.PiecePositionTurned | rubik.c:511-533 | after a quarter turn about face r, a piece's position is the turned image of its former position |
| Points.DecodeEncode | rubik.c:536-544 | decoding the letters written for a state gives back its orientations |
| Points.DecodePoint | rubik.c:387-390 | each of the first twenty letters names the orientation given by its distance from 'A', a number from 0 to 23 |
| Points.EncodePoint | rubik.c:536-544 | the letter written for each piece is 'A' plus its orientation, a letter from 'A' to 'X' |
| Points.EncodeDecode | rubik.c:387-390 | encoding the orientations a valid cube point names gives back the cube point |
| Points.CubeFromOrients | rubik.c:381-401 | orientations describe a state exactly when no two pieces land on the same position; that state has those orientations and sits every piece where its orientation puts it |
| Points.PlacementInverse | rubik.c:381-401 | pieces at distinct positions give a placement that is a permutation and sends each piece's position back to the piece |
| Points.Recovered | rubik.c:536-544 | a consistent state is recovered from its orientations alone |
| Points.PrintedPointRestores | rubik.c:536-544 | after any face turn, the printed cube point sets up exactly the state that was printed |
| Points.SolvedPoint | rubik.c:693 | the all-'A' code gives orientation 0 to every piece and puts piece q at position q |
| Cube.ApplyOrientation | rubik.c:373-379 | the output array holds the reference colours in the order of the orientation |
| Cube.InitCubePoint | rubik.c:383-401 | the orientations array holds the decoded letters; the result is true exactly when the orientations describe a state, and then the arrays hold that state |
| Cube.MoveMinicubes | rubik.c:474-480 | the piece at each of the four positions moves to the next one, the last to the first, and every other position keeps its piece |
| Cube.MoveMinicubesReverse | rubik.c:482-488 | the piece at each of the four positions moves to the previous one, the first to the last, and every other position keeps its piece |
| Cube.MoveFaceRings | rubik.c:511-526 | the do-while loops over the corner ring and the edge ring turn the face's positions by `times` quarter turns |
| Cube.TurnFacePieces | rubik.c:527-533 | every piece on the face's slots steps t times through the table, and every other piece keeps its orientation |
| Cube.RotateCubeFace | rubik.c:502-534 | the arrays end holding the specified turn of the face applied to the state they held |
| Cube.CubePointChars | rubik.c:536-544 | the letter written for each piece is the letter of its orientation |
| CubeState.RotateFaceAdd | rubik.c:502-534 | turning a face a times and then c times is turning it a + c times |
| CubeState.RotateFace | rubik.c:502-534 | the specification of a face turn; the turned state is well formed: orientations stay in range and the placement stays a permutation |
| CubeState.RotateFaceWhole | rubik.c:508-510 | a multiple of four quarter turns, zero among them, leaves the state unchanged |
| CubeState.RotateFaceInverse | rubik.c:512-526 | turning a face n times and then -n times restores the state |
| CubeState.RotateFaceFourTimes | rubik.c:512-518 | four single clockwise quarter turns of a face restore the state |
| CubeState.RotateFaceFrame | rubik.c:511-533 | a turn changes only the pieces on the face's eight positions; the pieces on the face stay on it and only they are turned |
| CubeState.RotateFaceConsistent | rubik.c:502-534 | a turn keeps every piece at the position its new orientation puts it at |
| CubeState.TurnPositionsPlacement | rubik.c:474-488 | moving the pieces round the rings keeps the placement a permutation |
| CubeState.CRem4 | rubik.c:492 | C's remainder by 4: it differs from the argument by a multiple of 4, lies strictly between -4 and 4, and takes the argument's sign |
| CubeState.ReduceTimes | rubik.c:490-500 | the result is between -2 and 2 and congruent to the input modulo 4; it is 2 only for a positive input and -2 only for a negative one |
| CubeState.ReduceTimesUnique | rubik.c:490-500 | any value with those properties is the reduced count |
| CubeState.RotateFaceReduced | rubik.c:739-741 | turning a face by the reduced count is the same as turning it by the original count |
| Tables.Tables.constructor | rubik.c:724-726 | the three builders, run in the program's order, fill arrays equal to ORIGCOLORS, ORIENTATIONS and TRANSFORMATIONS |
| Tables.Tables.InitOriginalMinicubeColors | rubik.c:153-170 | the rows filled are exactly the lattice scan |
| Tables.Tables.InitMinicubeOrientations | rubik.c:217-233 | the array holds ORIENTATIONS |
| Tables.Tables.InitMinicubeTransformations | rubik.c:337-348 | each entry (r, i) is the first orientation equal to orientation i turned about r, or -1 |
| Tables.Tables.FindOrientation | rubik.c:314-331 | the loop returns the first row equal to the searched colours, or -1 when there is none |
| Tables.Tables.FindMinicubePosition | rubik.c:175-197 | the loop returns the first piece whose reference colouring has the same shape, or -1 |
| Tables.RotateMinicube | rubik.c:296-303 | the four swaps leave the colours turned clockwise about the face |
| Tables.CopyOrientation | rubik.c:305-310 | the destination holds the copied row |
| Tables.TransformationsBuilt | rubik.c:337-348 | a table filled by first matches over ORIENTATIONS equals TRANSFORMATIONS |
| Labels.ColorToChar | rubik.c:130-132 | EMPTY_COLOR shows as a space, and any other colour as its label |
| Labels.Strchr | rubik.c:135 | the offset strchr gives: for the NUL character the length of the string, which is where its terminator is; for any other character -1 exactly when it is absent, and otherwise the index of its first occurrence |
| Labels.CharToColorAsWritten | rubik.c:134-137 | the offset strchr finds: the terminator's offset for the NUL character, otherwise the corrected result |
| Labels.NulNamesNoFace | rubik.c:134-137 | as written, the NUL character gives 6 under the default labels, which is not a face |
| Labels.CharToColor | rubik.c:134-137 | the result is EMPTY_COLOR exactly when the character is no label; otherwise it is the first index of that label |
| Labels.CharToColorToChar | rubik.c:130-137 | with valid labels, the label of a colour names that colour |
| Labels.ColorToCharToColor | rubik.c:130-137 | every label is the label of the colour it names |
| Labels.CharToColorRange | rubik.c:134-137 | with valid labels, every character names a face or no colour |
| Labels.ValidCubePointChars | rubik.c:546-559 | true exactly when the argument is twenty letters from 'A' to 'X' |
| Labels.ValidColorChars | rubik.c:564-578 | true exactly when the argument is six printable characters, none of them a minus or an apostrophe, and none repeated |
| Labels.DefaultColorCharsOk | rubik.c:127 | the default labels "123456" are valid |
| Parser.InitialInput | rubik.c:615-620 | the fresh reader holds no pending or saved face, a positive sign, no turns and NUL as the last key and last label |
| Parser.ClosePending | rubik.c:659-674 | when the saved face differs from the pending one, its turns are handed on first; either way the pending face becomes the saved one, with its signed quarter turn added |
| Parser.Step | rubik.c:628-684 | a key completes at most one move; that move is the saved face with its gathered turns, and only a label or an end of line completes one; the sign stays ±1, no turns are held without a saved face, and the key becomes the last key |
| Parser.StepHoldsFaces | rubik.c:631-680 | with valid labels, the reader only holds faces of the cube, and every move names a face |
| Parser.OtherKeyIgnored | rubik.c:641-658 | any other key only records itself as the last key and clears the last label |
| Parser.TwoNewlinesFlush | rubik.c:646-674 | two ends of line in a row leave nothing pending and nothing saved, and no turns gathered |
| Parser.Feed | rubik.c:735-754 | a string of keys completes at most one move per key, and the reader stays settled |
| Parser.FeedAppend | rubik.c:735-754 | feeding two strings one after the other is feeding their concatenation |
| Parser.StartsAtRest | rubik.c:733-734 | the end of line the program feeds before the first key leaves the fresh reader at rest |
| Parser.MainKeys | rubik.c:735-754 | the keys the input loop feeds the reader for what it reads: at least as many as were read, the same characters, and exactly the characters read when no end of line was read |
| Parser.MainKeysCounts | rubik.c:735-754 | every character other than an end of line is fed exactly as often as it was read, and every end of line exactly twice as often |
| Parser.MainKeysAppend | rubik.c:735-754 | the loop handles each character read on its own, so the keys for two stretches of input are the keys for each, one after the other |
| Parser.MainLoop | rubik.c:733-754 | the loop starts with an end of line, which is fed twice to the fresh reader; the whole run then feeds the typed keys from rest |
| Parser.RepeatedFace | rubik.c:667-674 | typing a label twice and ending the line ("11") turns that face twice |
| Parser.RepeatedFaceFresh | rubik.c:615-674 | from the freshly initialised reader as well, "11" and the end of the line turn that face twice |
| Parser.TwoFaces | rubik.c:631-666 | typing two different labels and ending the line ("12") turns each face once, in order |
| Parser.ApostropheNegates | rubik.c:642-645 | "1'" turns the face anticlockwise, and "1''" does the same |
| Parser.MinusNegates | rubik.c:677-679 | "-1" turns the face anticlockwise, and "-1'" does the same |
| Parser.LeadingApostropheNegates | rubik.c:615-645 | on a fresh reader, an apostrophe before the first label negates it; after an end of line it does not |
| Parser.MainTurnsAtEndOfLine | rubik.c:734-754 | in the program's input loop, a label and then the end of its line turn the face once |
| Parser.InputReader.InitInputState | rubik.c:615-620 | the fields become the fresh reader state, and the last move is kept |
| Parser.InputReader.ProcessInputChar | rubik.c:622-684 | the fields change exactly as `Step` says; the result is true exactly when `Step` completes a move, which is then the stored move; otherwise the stored move is kept |

## Left out

- The drawings of the cube, the orientations, the tables and the template (every `print_*`
  function except the letters of `print_cube_point`) are output and not modelled. So are
  `println` and `print_help`.
- `main`'s handling of `argv`, `getchar`, `EOF`, the exit codes and the `silent` flag is left out.
  The model of its input loop is only the key sequence it feeds the reader (`Parser.MainKeys`:
  every end of line twice; the end of line the loop starts with is handled by `Parser.StartsAtRest`
  and `Parser.MainLoop`) and the reduction of each move before it is applied.
- CubeState.CRem4: assumes that `%` truncates toward zero, as C99 and gcc define it. The program
  is built with `-ansi`, and C89 leaves the sign of `%` with a negative operand to the
  implementation. `CubeState.RotateFaceReduced` holds either way, since both choices are
  congruent modulo 4.
- `isgraph` is taken to be that of the C locale: the ASCII codes 33 to 126.
- C's `char` width and signedness and `int` overflow are not modelled. Counts and indices are
  unbounded integers. `times` in the reader can grow without limit, as an `int` would until it
  overflows.
- A C string is modelled as the sequence of characters before its terminator, so it has no NUL
  (`Labels.IsCString`).
- Cube.MoveMinicubes and Cube.MoveMinicubesReverse require the four positions to be distinct, as
  every ring of POSITIONS_BY_FACE is. With repeated positions the C code still runs, but no ring
  of the program has them.
- Cube.InitCubePoint requires a valid cube point and Cube.RotateCubeFace requires a well-formed
  state, so that every index the C code takes stays in range. `main` guarantees both:
  `valid_cube_point_chars` runs before `init_cube_point`, and faces are only turned after it
  succeeds.
- `rotate_cube_face`'s body is split into `Cube.MoveFaceRings` (the position loops) and
  `Cube.TurnFacePieces` (the orientation loop). `init_original_minicube_colors` is split likewise
  (`KeepCell`, `SetMinicubeColors`), and so is `init_minicube_transformations`
  (`TransformRow`, `TransformOrientation`) and the body of `init_minicube_orientations`
  (`SetOrientation`). The behaviour is unchanged.
- The cube operations read the constant tables rather than the arrays `Tables.Tables` fills,
  because its constructor is proved to fill exactly those constants.
- Tables.Tables.FindMinicubePosition: nothing in the model calls this array loop. `Cube.InitCubePoint`
  calls the function `Geometry.FindMinicubePosition`, and the loop is kept only as the C code's
  counterpart of that function, which it is proved equal to.
- A minus or an apostrophe *sets* the sign to negative; it does not toggle it. So "1''" and
  "-1'" still turn anticlockwise, as the program's help text promises.
- The fresh reader has NUL as its last key and last label, so an apostrophe as the very first key
  negates the next label (`Parser.LeadingApostropheNegates`). `main` masks this by feeding an end
  of line before the first key.
- The reader (`Parser.Step`, `Parser.InputReader.ProcessInputChar`) uses the corrected
  `Labels.CharToColor`, so a NUL byte in the input is ignored like any other unknown key. See
  Findings.

## Findings

| source | as written | input that shows it | evidently intended | confidence | as-written member | corrected member |
|---|---|---|---|---|---|---|
| rubik.c:134-137 | `strchr` also finds the terminating NUL, so `char_to_color('\0')` is `strlen(COLOR_CHARS)`, which is 6 for valid labels: a face that does not exist, and it is then used as an index into `POSITIONS_BY_FACE` | a zero byte on standard input, for example `printf '1\0\n'` piped into the program | the NUL character names no colour (`EMPTY_COLOR`), like every other character that is not a label | not executed | Labels.NulNamesNoFace | Labels.CharToColorRange |
