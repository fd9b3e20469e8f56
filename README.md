# Rubik's cube store, turns and net display — a Dafny model

This project models the core of a Rubik's-cube solver written in Python.

- **The piece store** (`Cube.py`). A cube is a dictionary `cubes` from the twenty
  piece identifiers of `PETITS_CUBES` (`FU`, `FRU`, …, `RD`) to lists of colour
  codes. A list holds one code per letter of the identifier: a corner has 3, an
  edge has 2.
  - `__init__` builds the solved cube.
  - `edit_cube` replaces one piece after checking its colours with the
    opposite-colour group rule.
  - The twelve `rot_*` methods turn a face by rewriting pieces in place.
- **The picture** `Cube.__str__`. It draws the net of the cube, with nine cells per
  face, from the entries of the pieces.
- **The facelet reader and validator**, as `tests/test_lire_entree.py` states them.
  - `decomposition_faces` cuts a 54-letter string over `W B R G O Y` into six faces
    of nine codes.
  - `check_faces` refuses a net whose centres repeat a colour, and a net where some
    colour does not cover nine cells. The model checks the centres first.

Colour codes are the ones in the docstring of `Cube`:

| code | colour | face |
|---|---|---|
| 0 | White | Down |
| 1 | Blue | Front |
| 2 | Red | Right |
| 3 | Green | Back |
| 4 | Orange | Left |
| 5 | Yellow | Up |

`edit_cube` forbids two colours of the same opposition group on one piece.

The modules are:

- `Outcomes`: `Option`, and `Raised`, the outcome of a call that may raise `KeyError`.
- `Colours`: faces, codes, letters and groups.
- `Pieces`: identifiers, the solved store and the `edit_cube` rule.
- `Turns`: each turn as a function of the store.
- `TurnLaws`: inverse and order laws, and the sticker permutations.
- `Conservation`: colour counts and the colour rule under the turns.
- `CubeObject`: the class `Cube`. Its methods change `cubes` step by step, the way
  the source does, and are proved equal to the functions in `Turns`.
- `Facelets`: the reader, the validator and the test cases.
- `Display`: the picture and its read-back through the reader.

The turns are modelled **as the code is written**:

- `rot_Ri` takes its edge snapshot from `LD` instead of `RD`. `R` followed by `Ri`
  therefore restores every corner but not every edge.
- `rot_F` and `rot_Fi` look up the key `FLD`, and `rot_B` looks up `BRD`. Neither is
  an identifier, so these methods raise `KeyError` before they write anything.
- `rot_Bi` is an empty stub.

## Model

| member | source | states |
|---|---|---|
| Colours.FaceCode | Cube.py:25-31 | each face's colour code is one of the six codes 0..5 |
| Colours.CodeOf | Cube.py:17-23 | a recognised letter gives a code in 0..5 whose letter is that letter |
| Colours.Group | Cube.py:156-161 | `codeToGroup`: exactly the six colour codes have a group, and there are three groups |
| Colours.LetterRoundTrip | Cube.py:17-23 | reading the letter of code c gives back c, for every code |
| Colours.GroupIsOpposition | Cube.py:156-161 | every face colour has a group; two face colours share a group exactly when the faces are equal or opposite |
| Pieces.Arity | Cube.py:4-5 | a piece has as many entries as its identifier has letters |
| Pieces.PetitsCubesComplete | Cube.py:4-5 | every piece is in `PETITS_CUBES`, has 2 or 3 entries, and each letter of its identifier names a face |
| Pieces.FindSound | Cube.py:172 | a lookup answers a listed piece with that identifier, and answers none exactly when no listed piece has it |
| Pieces.IdOfName | Cube.py:172 | an identifier string resolves to piece p exactly when it is p's name |
| Pieces.InitialShaped | Cube.py:41-68 | the fresh dictionary holds all twenty pieces, each with one entry per letter |
| Pieces.InitialIsSolved | Cube.py:41-68 | in the fresh dictionary, entry i of every piece is the colour of the face named by letter i |
| Pieces.Initial | Cube.py:41-68 | the dictionary `__init__` builds has every identifier as a key |
| Pieces.GroupCountZero | Cube.py:175-181 | a group's counter is zero exactly when no entry is in that group |
| Pieces.Accepted | Cube.py:175-188 | the group rule of `edit_cube`; a piece it accepts holds colour codes only |
| Pieces.CountsDecideAccepted | Cube.py:175-188 | once every code has a group, "no counter above one" holds exactly when no group occurs twice (both directions) |
| Pieces.AcceptedAtMostThree | Cube.py:156-161 | a piece the rule accepts has at most three entries |
| Pieces.EditCubeExamples | Cube.py:150-192 | `FU` resolves to a piece; white-yellow is refused; blue-yellow is accepted |
| Turns.TurnL | Cube.py:194-231 | `rot_L` keeps every piece's arity and leaves the pieces outside the left ring unchanged |
| Turns.TurnLi | Cube.py:233-270 | `rot_Li` keeps arities and leaves the pieces outside the left ring unchanged |
| Turns.TurnR | Cube.py:272-309 | `rot_R` keeps arities and leaves the pieces outside the right ring unchanged |
| Turns.TurnRi | Cube.py:311-348 | `rot_Ri` keeps arities and leaves the pieces outside the right ring unchanged |
| Turns.TurnU | Cube.py:387-397 | `rot_U` keeps every key and the arities, and changes only the pieces of the up layer |
| Turns.TurnUi | Cube.py:399-409 | `rot_Ui` keeps every key and the arities, and changes only the up layer |
| Turns.TurnD | Cube.py:411-421 | `rot_D` keeps every key and the arities, and changes only the down layer |
| Turns.TurnDi | Cube.py:423-433 | `rot_Di` keeps every key and the arities, and changes only the down layer |
| Turns.FirstMissing | Cube.py:356 | evaluating lookups left to right fails exactly when some key is absent, and the key reported is listed and absent |
| Turns.StrayKey | Cube.py:4-5 | identifiers starting `FL` or `BR` with three letters are keys of no store |
| Turns.RaisesOnRightHandSide | Cube.py:356 | for F, Fi and B, the first missing key of the right-hand side is `FLD`, or `BRD` for B |
| Turns.BackRaises | Cube.py:375 | `rot_B`'s right-hand side raises on `BRD`, its first key |
| Turns.FrontRaises | Cube.py:356 | `rot_F`'s right-hand side raises on `FLD`, its second key |
| Turns.FrontInverseRaises | Cube.py:365 | `rot_Fi`'s right-hand side raises on `FLD`, its third key |
| Turns.Step | Cube.py:350-385 | a move completes exactly when it is not F, Fi or B; a completed move keeps arities; a failing move raises the key named above |
| Turns.Run | tuto.py:19-23 | playing a move list keeps arities and ends without error exactly when every move completes |
| TurnLaws.LeftAt | Cube.py:201-231 | after `rot_L`, every sticker holds the old colour of the sticker `FromL` names |
| TurnLaws.LeftInverseAt | Cube.py:240-270 | after `rot_Li`, every sticker holds the old colour of the sticker `FromLi` names |
| TurnLaws.RightAt | Cube.py:279-309 | after `rot_R`, every sticker holds the old colour of the sticker `FromR` names |
| TurnLaws.RightInverseAt | Cube.py:318-348 | after `rot_Ri`, every sticker holds the old colour of the sticker `FromRi` names |
| TurnLaws.TurnAt | Cube.py:194-348 | the same law for any of L, Li, R and Ri |
| TurnLaws.LeftFromInverse | Cube.py:194-270 | the sticker maps of L and Li are inverse bijections |
| TurnLaws.RightFromPair | Cube.py:272-348 | R∘Ri and Ri∘R act as the identity on stickers, except at `BR` and `RD` respectively, which are sent to `LD` |
| TurnLaws.FromOrderFour | Cube.py:194-309 | four applications of the sticker map of L, Li or R give the identity |
| TurnLaws.TurnTwice | Cube.py:194-348 | two side turns compose their sticker maps in reverse order |
| TurnLaws.LeftInverse | Cube.py:194-270 | `rot_Li` undoes `rot_L` and `rot_L` undoes `rot_Li`, on every shaped store |
| TurnLaws.SideOrderFour | Cube.py:194-309 | four turns of L, Li or R restore every shaped store |
| TurnLaws.RightThenInverse | Cube.py:272-348 | R then Ri gives back the store with `BR` replaced by the swapped `LD` |
| TurnLaws.InverseThenRight | Cube.py:272-348 | Ri then R gives back the store with `RD` replaced by `LD` |
| TurnLaws.RightCornersRestored | Cube.py:279-334 | R/Ri in either order restores every corner |
| TurnLaws.RightInverseBreaksSolved | Cube.py:336-348 | on a solved store, R then Ri does not restore the store: `BR` becomes white-orange |
| TurnLaws.UpAt | Cube.py:393-397 | after `rot_U`, every piece holds the old value of its source piece |
| TurnLaws.UpInverseAt | Cube.py:405-409 | after `rot_Ui`, every piece holds the old value of its source piece |
| TurnLaws.DownAt | Cube.py:417-421 | after `rot_D`, every piece holds the old value of its source piece |
| TurnLaws.DownInverseAt | Cube.py:429-433 | after `rot_Di`, every piece holds the old value of its source piece |
| TurnLaws.LayerAt | Cube.py:387-433 | the piece law for any of U, Ui, D and Di |
| TurnLaws.SourceLaws | Cube.py:387-433 | the piece maps of a layer turn and its inverse are inverse, and each has order four |
| TurnLaws.LayerInverse | Cube.py:387-433 | the inverse of a layer turn undoes it, on every shaped store |
| TurnLaws.LayerOrderFour | Cube.py:387-433 | four identical layer turns restore every shaped store |
| TurnLaws.InverseLaw | Cube.py:194-433 | for L, Li, U, Ui, D and Di, the inverse move completes and undoes the move |
| TurnLaws.OrderFour | Cube.py:194-433 | every completing move other than Ri, four times, restores the store |
| TurnLaws.RunAppend | tuto.py:19-23 | when a first list plays through, playing a list then another is playing the second from the first's result |
| TurnLaws.RunFirst | tuto.py:19-23 | playing a list that starts with a completing move is playing the rest from that move's result |
| TurnLaws.UndoRestores | tuto.py:19-23 | a list of L, Li, U, Ui, D, Di moves followed by its undoing list plays through and restores the store |
| Conservation.ReorderedCorner | Cube.py:201-215 | rewriting a corner with its three entries reordered keeps every colour count |
| Conservation.SwappedEdge | Cube.py:217-231 | rewriting an edge with its two entries swapped keeps every colour count |
| Conservation.ReorderedCornerAccepted | Cube.py:156-161 | a reordered corner satisfies the group rule when the original does |
| Conservation.SwappedEdgeAccepted | Cube.py:156-161 | a swapped edge satisfies the group rule when the original does |
| Conservation.LeftKeepsTally | Cube.py:194-231 | `rot_L` keeps the number of stickers of every colour |
| Conservation.LeftInverseKeepsTally | Cube.py:233-270 | `rot_Li` keeps the number of stickers of every colour |
| Conservation.RightKeepsTally | Cube.py:272-309 | `rot_R` keeps the number of stickers of every colour |
| Conservation.RightInverseTally | Cube.py:311-348 | `rot_Ri` changes each colour's count by the colours of `LD` gained and those of `RD` lost |
| Conservation.RightInverseChangesColours | Cube.py:336-348 | on the solved cube, `rot_Ri` loses one red sticker and gains one orange |
| Conservation.UpKeepsTally | Cube.py:387-397 | `rot_U` keeps every colour count |
| Conservation.UpInverseKeepsTally | Cube.py:399-409 | `rot_Ui` keeps every colour count |
| Conservation.DownKeepsTally | Cube.py:411-421 | `rot_D` keeps every colour count |
| Conservation.DownInverseKeepsTally | Cube.py:423-433 | `rot_Di` keeps every colour count |
| Conservation.TurnKeepsTally | Cube.py:194-433 | every completing move other than Ri keeps every colour count |
| Conservation.LeftKeepsAccepted | Cube.py:194-231 | if every piece satisfies the group rule, it still does after `rot_L` |
| Conservation.LeftInverseKeepsAccepted | Cube.py:233-270 | the group rule is preserved by `rot_Li` |
| Conservation.RightKeepsAccepted | Cube.py:272-309 | the group rule is preserved by `rot_R` |
| Conservation.RightInverseKeepsAccepted | Cube.py:311-348 | the group rule is preserved by `rot_Ri` |
| Conservation.LayerKeepsAccepted | Cube.py:387-433 | the group rule is preserved by U, Ui, D and Di |
| Conservation.TurnKeepsAccepted | Cube.py:194-433 | the group rule is preserved by every completing move |
| CubeObject.LeftCorners | Cube.py:201-215 | the in-place corner writes of `rot_L` produce the four reordered corners |
| CubeObject.LeftEdges | Cube.py:217-231 | the edge writes of `rot_L`, with the `LD` snapshot, produce the four swapped edges |
| CubeObject.LeftInverseCorners | Cube.py:240-256 | the corner writes of `rot_Li` |
| CubeObject.LeftInverseEdges | Cube.py:258-270 | the edge writes of `rot_Li` |
| CubeObject.RightCorners | Cube.py:279-295 | the corner writes of `rot_R` |
| CubeObject.RightEdges | Cube.py:297-309 | the edge writes of `rot_R` |
| CubeObject.RightInverseCorners | Cube.py:318-334 | the corner writes of `rot_Ri` |
| CubeObject.RightInverseEdges | Cube.py:336-348 | the edge writes of `rot_Ri`, where the snapshot taken is `LD` and it lands in `BR` |
| CubeObject.UngroupedRefused | Cube.py:177-179 | a code without a group makes the piece unacceptable |
| CubeObject.Cube.constructor | Cube.py:34-68 | a new cube holds the solved dictionary, all pieces with full arity |
| CubeObject.Cube.EditCube | Cube.py:150-192 | the call succeeds exactly when the identifier is known and the colours pass the group rule; then only that piece is replaced, otherwise nothing changes |
| CubeObject.Cube.RotL | Cube.py:194-231 | the store afterwards is `TurnL` of the store before |
| CubeObject.Cube.RotLi | Cube.py:233-270 | the store afterwards is `TurnLi` of the store before |
| CubeObject.Cube.RotR | Cube.py:272-309 | the store afterwards is `TurnR` of the store before |
| CubeObject.Cube.RotRi | Cube.py:311-348 | the store afterwards is `TurnRi` of the store before |
| CubeObject.Cube.FirstMissingKey | Cube.py:356 | the left-to-right lookups report exactly the first absent key |
| CubeObject.Cube.RotF | Cube.py:350-357 | raises `KeyError('FLD')` and changes nothing |
| CubeObject.Cube.RotFi | Cube.py:359-366 | raises `KeyError('FLD')` and changes nothing |
| CubeObject.Cube.RotB | Cube.py:368-376 | raises `KeyError('BRD')` and changes nothing |
| CubeObject.Cube.RotBi | Cube.py:378-385 | leaves the store unchanged |
| CubeObject.Cube.RotU | Cube.py:387-397 | the store afterwards is `TurnU` of the store before |
| CubeObject.Cube.RotUi | Cube.py:399-409 | the store afterwards is `TurnUi` of the store before |
| CubeObject.Cube.RotD | Cube.py:411-421 | the store afterwards is `TurnD` of the store before |
| CubeObject.Cube.RotDi | Cube.py:423-433 | the store afterwards is `TurnDi` of the store before |
| CubeObject.Cube.Apply | tuto.py:21-22 | calling `rot_<move>` either turns the store as `Step` says, or raises `Step`'s key and leaves the store as it was |
| CubeObject.Cube.Play | tuto.py:19-23 | the loop ends with the store and outcome of `Run`: moves before the first failure stay applied |
| Facelets.FlatAt | tests/test_lire_entree.py:31-42 | cell c of face k sits at its reading position in the 54-character order |
| Facelets.UnflatFlat | tests/test_lire_entree.py:31-42 | cutting the flattened net back into faces gives the same six faces |
| Facelets.FlatUnflat | tests/test_lire_entree.py:31-42 | flattening the cut faces gives back the same 54 codes |
| Facelets.Stray | tests/test_lire_entree.py:24 | the answer is the first character that is not a colour letter, or none exactly when every character is one |
| Facelets.Decompose | tests/test_lire_entree.py:21-42 | a string is decomposed exactly when it has 54 colour letters, and each cell is then the code of its letter; otherwise it is refused for its length exactly when that is not 54, or at its first character that is not a colour letter |
| Facelets.DecomposeEncode | tests/test_lire_entree.py:31-42 | writing any coded net as letters and reading it back gives the same faces |
| Facelets.EncodeDecompose | tests/test_lire_entree.py:31-42 | a string that is decomposed is the letters of its faces |
| Facelets.CellCountMultiset | tests/test_lire_entree.py:58-68 | a face's colour tally is that colour's multiplicity among the face's cells |
| Facelets.OccurrencesFlat | tests/test_lire_entree.py:58-68 | the count over the six faces is the multiplicity of the colour in the flat net |
| Facelets.CheckFaces | tests/test_lire_entree.py:44-75 | `check_faces` answers no error, the centre message or the count message |
| Facelets.CentresCover | tests/test_lire_entree.py:46-57 | on coded faces, the six centres are pairwise different exactly when every colour is the centre of some face |
| Facelets.CheckFacesPasses | tests/test_lire_entree.py:70-75 | no error exactly when the six centres are the six colours and each colour covers nine of the 54 cells of the net |
| Facelets.CentreMessage | tests/test_lire_entree.py:46-57 | the centre message exactly when some colour is the centre of no face |
| Facelets.CountMessage | tests/test_lire_entree.py:58-68 | the count message only when some colour does not cover nine of the 54 cells |
| Facelets.CentresAreTheColours | tests/test_lire_entree.py:46-57 | a coded net that passes the checks has all six colours as its centres |
| Facelets.DecomposeNet | tests/test_lire_entree.py:31-42 | a string written as Up face, three bands and Down face decomposes into the net they spell |
| Facelets.SampleDecomposed | tests/test_lire_entree.py:31-42 | the sample string decomposes into the expected six faces |
| Facelets.RefusedInputs | tests/test_lire_entree.py:21-24 | `'mon beau sapin'` is refused for its length; the sample ending in `1` is refused at index 53 |
| Facelets.CentresChecked | tests/test_lire_entree.py:46-57 | the two-centres-alike string decomposes with nine of each colour, and the check reports the duplicated centre |
| Facelets.CountsChecked | tests/test_lire_entree.py:58-68 | the three-blue string has distinct centres and three blue cells, and the check reports the colour count |
| Facelets.SolidFacesPass | tests/test_lire_entree.py:70-75 | the solid string decomposes and passes the checks |
| Display.CellsCentre | Cube.py:90-124 | cell 4 of every face is that face's fixed colour; the other eight cells show piece entries |
| Display.Cells | Cube.py:90-124 | each face has nine cells, and every cell that shows a piece entry names an entry the piece has |
| Display.CellFacesItsFace | Cube.py:90-124 | every entry drawn on a face is the entry whose identifier letter names that face |
| Display.CellsDistinct | Cube.py:90-124 | the nine cells of a face are all different |
| Display.SpotShows | Cube.py:90-124 | every entry of every piece is drawn on the face its letter names |
| Display.ShownOnce | Cube.py:90-124 | an entry is drawn in one cell only: the one `SpotShows` names |
| Display.FacesShowEntries | Cube.py:90-124 | each entry's cell shows its code; the centres show the face colours; the centres read Y O B R G W |
| Display.FacesCoded | Cube.py:90-131 | every cell of the picture is a colour code exactly when every displayed entry is |
| Display.SolvedIffSolid | Cube.py:90-124 | the picture shows six solid faces exactly when every piece shows its faces' colours |
| Display.InitialShowsSolid | Cube.py:90-124 | a fresh cube shows the solid net, which passes the checks |
| Display.EdgeLinesLayout | Cube.py:135-137 | Up lines are 15 characters: the three cells at 4..6, blanks elsewhere; Down lines (Cube.py:146) are the same but 11 long |
| Display.BandLineLayout | Cube.py:140-142 | middle lines are 15 characters: Left, Front, Right and Back rows with one blank between them |
| Display.JoinBreaks | Cube.py:148 | joining n lines without line breaks puts exactly n-1 line breaks |
| Display.Join | Cube.py:148 | the joined text is as long as the lines together plus one break between each two |
| Display.Render | Cube.py:133-148 | the picture is 131 characters: three Up rows and three side rows of 15, three Down rows of 11, and 8 breaks |
| Display.RenderNineLines | Cube.py:133-148 | the picture of a coded store has nine lines |
| Display.StripRender | Cube.py:127-148 | without blanks and line breaks, the picture is the drawn net in facelet order |
| Display.RenderSpellsFacelets | Cube.py:70-148 | with the letter map as the code-to-colour conversion, the picture stripped of blanks is the facelet string of the shown faces, and it reads back to those faces |
| Display.RenderReadsBack | Cube.py:70-148 | every string that reads back to the shown faces is the stripped picture |
| Display.InitialRendersSolid | Cube.py:70-148 | a fresh cube's stripped picture is the solid test string |

## Left out

- The numpy arrays are not modelled. Pieces are values, not arrays written in place, so aliasing between pieces is not captured.
- Each turn is written as the sequence of map updates that `rot_*` performs on the dictionary.
- The global `c` that the `rot_*` methods read (Cube.py:194-433 write to `c.cubes`, not `self.cubes`) is taken to be the receiver itself.
- `TypeError` for non-string inputs (tests/test_lire_entree.py:16-19) is not modelled, because Dafny's types already exclude such inputs.
- `lire_entree.py` is not part of this model.
  - `decomposition_faces` and `check_faces` are modelled from the behaviour their tests fix.
  - The single `ValueError` is split into a wrong-length outcome and an unknown-letter outcome.
  - The length is checked first. This is a modelling choice.
- Facelets.CheckFaces: the centre check comes before the count check. The tests do not fix this order, since no test input has both faults. This is a modelling choice.
- `lecture_cube` is not modelled.
- `utils.py` is not part of this model. `codeToColor` is the parameter `glyph` of `Display.Render`; the letter map used with it is the colour table of the `Cube` docstring. `codeToGroup` is `Colours.Group`, taken from the group table of the `edit_cube` docstring.
- Turns.TurnL: the L, Li, R and Ri turns require every piece to hold exactly its arity (`Shaped`). The `edit_cube` docstring (Cube.py:165-166) asks its callers to supply 2 or 3 entries according to the piece, and `edit_cube` does not check this. Pieces of other lengths are not modelled: in the source, a ring piece with too few entries makes the turn raise `IndexError`, and one with too many keeps its extra entries.
- Display.RenderNineLines: `__str__` raises `IndexError` when a piece is too short. The display lemmas require every piece to hold at least its arity's entries, so this case is not modelled.
- The tutorial (`tuto.py`) is modelled only as its move loop. The screen clearing, the printing, `sleep` and the `algo_cfop` solver are not modelled.
- The `__main__` demo of Cube.py:438-485 prints pictures and is not modelled.
- The picture as drawn by the code joins the three cells of a row with no blank between them. The docstring sketch (Cube.py:72-81) shows blanks between cells. The model follows the code.
- Whether a configuration is solvable is not modelled.
- Conservation.RightInverseTally: `rot_Ri` does not keep colour counts, because it reads `LD` where `RD` is meant. The lemma states the exact change instead of conservation.
- TurnLaws.RightThenInverse: for the same reason, R and Ri are not inverse turns. The model proves the corner half (TurnLaws.RightCornersRestored) and the exact edge discrepancy, not the full inverse law.
- TurnLaws.OrderFour: Ri is excluded, because four Ri turns do not restore the store.
