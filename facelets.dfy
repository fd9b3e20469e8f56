/** The facelet-string reader `decomposition_faces` and the validator `check_faces`,
    as tests/test_lire_entree.py pins them down: a 54-letter string over W B R G O Y
    is cut into six faces of nine colour codes, in the order Up, Left, Front, Right,
    Back, Down; the validator reports duplicated centres before wrong colour counts. */
module Facelets {
  import opened Outcomes
  import opened Colours

  /** Six faces of nine cells, each face read row by row. */
  type Faces = seq<seq<int>>

  /** Six faces of nine cells each. */
  predicate Grid(faces: Faces)
  {
    |faces| == 6 && forall k :: 0 <= k < 6 ==> |faces[k]| == 9
  }

  /** A grid whose every cell is a colour code. */
  predicate Coded(faces: Faces)
  {
    Grid(faces) && forall k, c :: 0 <= k < 6 && 0 <= c < 9 ==> 0 <= faces[k][c] <= 5
  }

  /** The outcome of `decomposition_faces`: the faces, or one of the two ways the
      source raises `ValueError`. */
  datatype Decoded = Parsed(faces: Faces) | WrongLength(length: nat) | UnknownLetter(at: nat)

  /** Row `r` of a face: cells 3r to 3r+2. */
  function Row(face: seq<int>, r: nat): (row: seq<int>)
    requires |face| == 9 && r < 3
    ensures |row| == 3 && forall j :: 0 <= j < 3 ==> row[j] == face[3 * r + j]
  {
    face[3 * r..3 * r + 3]
  }

  /** Row `r` across the middle band of the net: Left, Front, Right, Back side by side. */
  function Band(faces: Faces, r: nat): (band: seq<int>)
    requires Grid(faces) && r < 3
    ensures |band| == 12
  {
    Row(faces[1], r) + Row(faces[2], r) + Row(faces[3], r) + Row(faces[4], r)
  }

  /** The 54 cells in the order of the input string: the Up face, the three rows of
      the middle band, the Down face. */
  function Flat(faces: Faces): (s: seq<int>)
    requires Grid(faces)
    ensures |s| == 54
  {
    faces[0] + Band(faces, 0) + Band(faces, 1) + Band(faces, 2) + faces[5]
  }

  /** Where in the string cell `c` (row c / 3, column c % 3) of face `k` is read. */
  function FaceletIndex(k: nat, c: nat): (i: nat)
    requires k < 6 && c < 9
    ensures i < 54
  {
    if k == 0 then c
    else if k == 5 then 45 + c
    else 9 + 12 * (c / 3) + 3 * (k - 1) + c % 3
  }

  /** The face and cell read from position `i` of the string. */
  function Place(i: nat): (kc: (nat, nat))
    requires i < 54
    ensures kc.0 < 6 && kc.1 < 9 && FaceletIndex(kc.0, kc.1) == i
  {
    if i < 9 then (0, i)
    else if i >= 45 then (5, i - 45)
    else
      var r := (i - 9) / 12;
      var col := (i - 9) % 12;
      (1 + col / 3, 3 * r + col % 3)
  }

  /** Position `x` of the band in row `r` is column x % 3 of that row on side 1 + x / 3. */
  lemma BandAt(faces: Faces, r: nat, k: nat, j: nat)
    requires Grid(faces) && r < 3 && 0 < k < 5 && j < 3
    ensures Band(faces, r)[3 * (k - 1) + j] == faces[k][3 * r + j]
  {
    var a, b, c, d := Row(faces[1], r), Row(faces[2], r), Row(faces[3], r), Row(faces[4], r);
    assert Band(faces, r) == a + b + c + d;
  }

  /** Where the Up face, the three band rows and the Down face sit in the flattened net. */
  lemma FlatParts(faces: Faces)
    requires Grid(faces)
    ensures forall c :: 0 <= c < 9 ==> Flat(faces)[c] == faces[0][c] && Flat(faces)[45 + c] == faces[5][c]
    ensures forall r, x :: 0 <= r < 3 && 0 <= x < 12 ==> Flat(faces)[9 + 12 * r + x] == Band(faces, r)[x]
  {
    var up, b0, b1, b2, down := faces[0], Band(faces, 0), Band(faces, 1), Band(faces, 2), faces[5];
    assert Flat(faces) == up + b0 + b1 + b2 + down;
  }

  /** Cell `c` of face `k` lies at `FaceletIndex(k, c)` of the flattened net. */
  lemma FlatAt(faces: Faces, k: nat, c: nat)
    requires Grid(faces) && k < 6 && c < 9
    ensures Flat(faces)[FaceletIndex(k, c)] == faces[k][c]
  {
    FlatParts(faces);
    if 0 < k < 5 {
      var r, j := c / 3, c % 3;
      BandAt(faces, r, k, j);
      assert Flat(faces)[9 + 12 * r + (3 * (k - 1) + j)] == Band(faces, r)[3 * (k - 1) + j];
    }
  }

  /** Every position of the flattened net holds the cell `Place` names. */
  lemma FlatCells(faces: Faces)
    requires Grid(faces)
    ensures forall i :: 0 <= i < 54 ==> Flat(faces)[i] == faces[Place(i).0][Place(i).1]
  {
    forall i | 0 <= i < 54
      ensures Flat(faces)[i] == faces[Place(i).0][Place(i).1]
    {
      FlatAt(faces, Place(i).0, Place(i).1);
    }
  }

  /** Face `k` read out of 54 codes laid out as the input string. */
  function Face(s: seq<int>, k: nat): (face: seq<int>)
    requires |s| == 54 && k < 6
    ensures |face| == 9
  {
    seq(9, c requires 0 <= c < 9 => s[FaceletIndex(k, c)])
  }

  /** The six faces read out of 54 codes. */
  function Unflat(s: seq<int>): (faces: Faces)
    requires |s| == 54
    ensures Grid(faces)
  {
    seq(6, k requires 0 <= k < 6 => Face(s, k))
  }

  /** Reading the faces back out of their flattened net gives them back. */
  lemma UnflatFlat(faces: Faces)
    requires Grid(faces)
    ensures Unflat(Flat(faces)) == faces
  {
    forall k | 0 <= k < 6 ensures Unflat(Flat(faces))[k] == faces[k] {
      forall c | 0 <= c < 9 ensures Unflat(Flat(faces))[k][c] == faces[k][c] {
        FlatAt(faces, k, c);
      }
    }
  }

  /** Flattening the faces read out of 54 codes gives the codes back. */
  lemma FlatUnflat(s: seq<int>)
    requires |s| == 54
    ensures Flat(Unflat(s)) == s
  {
    FlatCells(Unflat(s));
  }

  /** The first position from `i` on whose character is not a colour letter. */
  function Stray(s: string, i: nat): (r: Option<nat>)
    requires i <= |s|
    ensures r.Some? ==> i <= r.value < |s| && CodeOf(s[r.value]).None?
    ensures r.Some? ==> forall j :: i <= j < r.value ==> CodeOf(s[j]).Some?
    ensures r.None? <==> forall j :: i <= j < |s| ==> CodeOf(s[j]).Some?
    decreases |s| - i
  {
    if i == |s| then None
    else if CodeOf(s[i]).None? then Some(i)
    else Stray(s, i + 1)
  }

  /** The colour codes of a string of colour letters. */
  function Codes(s: string): (codes: seq<int>)
    requires forall i :: 0 <= i < |s| ==> CodeOf(s[i]).Some?
    ensures |codes| == |s|
    ensures forall i :: 0 <= i < |s| ==> 0 <= codes[i] <= 5 && Letter(codes[i]) == s[i]
  {
    seq(|s|, i requires 0 <= i < |s| => CodeOf(s[i]).value)
  }

  /** `decomposition_faces`: a string is decomposed exactly when it has 54
      characters, all colour letters; its faces are then coded, and cell `c` of
      face `k` is the code of the letter at `FaceletIndex(k, c)`. Otherwise it is
      refused (the source raises `ValueError` for both cases): for its length,
      which is checked first, or at its first character that is not a colour letter. */
  function Decompose(s: string): (r: Decoded)
    ensures r.Parsed? <==> |s| == 54 && forall i :: 0 <= i < |s| ==> CodeOf(s[i]).Some?
    ensures r.Parsed? ==> Coded(r.faces)
    ensures r.Parsed? ==> forall k, c :: 0 <= k < 6 && 0 <= c < 9 ==> Letter(r.faces[k][c]) == s[FaceletIndex(k, c)]
    ensures r.WrongLength? <==> |s| != 54
    ensures r.WrongLength? ==> r.length == |s|
    ensures r.UnknownLetter? ==> |s| == 54 && r.at < 54 && CodeOf(s[r.at]).None?
    ensures r.UnknownLetter? ==> forall j :: 0 <= j < r.at ==> CodeOf(s[j]).Some?
  {
    if |s| != 54 then WrongLength(|s|)
    else match Stray(s, 0)
      case Some(i) => UnknownLetter(i)
      case None => Parsed(Unflat(Codes(s)))
  }

  /** Every entry is a colour code. */
  predicate CodesOnly(codes: seq<int>)
  {
    forall i :: 0 <= i < |codes| ==> 0 <= codes[i] <= 5
  }

  /** The letters of a sequence of colour codes. */
  function Letters(codes: seq<int>): (s: string)
    requires CodesOnly(codes)
    ensures |s| == |codes| && forall i :: 0 <= i < |codes| ==> s[i] == Letter(codes[i])
  {
    seq(|codes|, i requires 0 <= i < |codes| => Letter(codes[i]))
  }

  /** The letters of a coded net, in the order of the input string. */
  function Encode(faces: Faces): (s: string)
    requires Coded(faces)
    ensures |s| == 54
  {
    FlatCells(faces);
    Letters(Flat(faces))
  }

  /** Decomposing the letters of a coded net gives back the net. */
  lemma DecomposeEncode(faces: Faces)
    requires Coded(faces)
    ensures Decompose(Encode(faces)) == Parsed(faces)
  {
    var s := Encode(faces);
    FlatCells(faces);
    forall i | 0 <= i < 54 ensures CodeOf(s[i]) == Some(Flat(faces)[i]) {
      LetterRoundTrip(Flat(faces)[i]);
    }
    assert Codes(s) == Flat(faces);
    UnflatFlat(faces);
  }

  /** Writing out the faces of a decomposed string gives back the string. */
  lemma EncodeDecompose(s: string)
    requires Decompose(s).Parsed?
    ensures Coded(Decompose(s).faces) && Encode(Decompose(s).faces) == s
  {
    FlatUnflat(Codes(s));
  }

  const DuplicateCentre: string := "Chaque face ne possède pas une couleur différente"
  const MissingColour: string := "Toutes les couleurs ne sont pas présentes 9 fois"

  /** The six centre cells (cell 4 of each face) are pairwise different. */
  predicate DistinctCentres(faces: Faces)
    requires Grid(faces)
  {
    forall k, l :: 0 <= k < l < 6 ==> faces[k][4] != faces[l][4]
  }

  /** How many of a face's nine cells hold the colour code `c`. */
  function CellCount(face: seq<int>, c: int): nat
    requires |face| == 9
  {
    (if face[0] == c then 1 else 0) + (if face[1] == c then 1 else 0) + (if face[2] == c then 1 else 0)
    + (if face[3] == c then 1 else 0) + (if face[4] == c then 1 else 0) + (if face[5] == c then 1 else 0)
    + (if face[6] == c then 1 else 0) + (if face[7] == c then 1 else 0) + (if face[8] == c then 1 else 0)
  }

  /** `CellCount` is the multiplicity of the colour among the face's cells. */
  lemma CellCountMultiset(face: seq<int>, c: int)
    requires |face| == 9
    ensures CellCount(face, c) == multiset(face)[c]
  {
    var f := face;
    forall n | 1 <= n <= 9
      ensures multiset(f[..n])[c] == multiset(f[..n - 1])[c] + (if f[n - 1] == c then 1 else 0)
    {
      assert f[..n] == f[..n - 1] + [f[n - 1]];
    }
    assert f[..0] == [];
    assert f[..9] == f;
  }

  /** How many cells of the six faces hold the colour code `c`. */
  function Occurrences(faces: Faces, c: int): nat
    requires Grid(faces)
  {
    CellCount(faces[0], c) + CellCount(faces[1], c) + CellCount(faces[2], c)
    + CellCount(faces[3], c) + CellCount(faces[4], c) + CellCount(faces[5], c)
  }

  /** Each of the six colours occurs on exactly nine cells. */
  predicate NineEach(faces: Faces)
    requires Grid(faces)
  {
    forall c :: 0 <= c <= 5 ==> Occurrences(faces, c) == 9
  }

  /** `check_faces`: the first failed check's message, or no error. */
  function CheckFaces(faces: Faces): (err: Option<string>)
    requires Grid(faces)
    ensures err.None? || err == Some(DuplicateCentre) || err == Some(MissingColour)
  {
    if !DistinctCentres(faces) then Some(DuplicateCentre)
    else if !NineEach(faces) then Some(MissingColour)
    else None
  }

  /** The centre check comes first, the count check second, and no error is
      reported exactly when both hold. */
  lemma CheckFacesOrder(faces: Faces)
    requires Grid(faces)
    ensures CheckFaces(faces) == Some(DuplicateCentre) <==> !DistinctCentres(faces)
    ensures CheckFaces(faces) == Some(MissingColour) <==> DistinctCentres(faces) && !NineEach(faces)
    ensures CheckFaces(faces).None? <==> DistinctCentres(faces) && NineEach(faces)
  {
  }

  /** A face's count of a colour is the sum over its three rows. */
  lemma RowsCount(face: seq<int>, c: int)
    requires |face| == 9
    ensures multiset(face)[c] == multiset(Row(face, 0))[c] + multiset(Row(face, 1))[c] + multiset(Row(face, 2))[c]
  {
    assert face == Row(face, 0) + Row(face, 1) + Row(face, 2);
  }

  /** A band row's count of a colour is the sum over the four side faces' rows. */
  lemma BandCount(faces: Faces, r: nat, c: int)
    requires Grid(faces) && r < 3
    ensures multiset(Band(faces, r))[c] == multiset(Row(faces[1], r))[c] + multiset(Row(faces[2], r))[c]
                                           + multiset(Row(faces[3], r))[c] + multiset(Row(faces[4], r))[c]
  {
  }

  /** `Occurrences` counts the colour over the 54 cells of the net. */
  lemma OccurrencesFlat(faces: Faces, c: int)
    requires Grid(faces)
    ensures Occurrences(faces, c) == multiset(Flat(faces))[c]
  {
    var f := faces;
    CellCountMultiset(f[0], c); CellCountMultiset(f[1], c); CellCountMultiset(f[2], c);
    CellCountMultiset(f[3], c); CellCountMultiset(f[4], c); CellCountMultiset(f[5], c);
    RowsCount(f[1], c); RowsCount(f[2], c); RowsCount(f[3], c); RowsCount(f[4], c);
    BandCount(f, 0, c); BandCount(f, 1, c); BandCount(f, 2, c);
    assert multiset(Flat(f))[c] == multiset(f[0])[c] + multiset(Band(f, 0))[c] + multiset(Band(f, 1))[c]
                                   + multiset(Band(f, 2))[c] + multiset(f[5])[c];
  }

  /** The centre cells of the six faces, in net order. */
  function Centres(faces: Faces): (centres: seq<int>)
    requires Grid(faces)
    ensures |centres| == 6 && forall k :: 0 <= k < 6 ==> centres[k] == faces[k][4]
  {
    [faces[0][4], faces[1][4], faces[2][4], faces[3][4], faces[4][4], faces[5][4]]
  }

  /** On coded faces that pass the checks, every colour is the centre of some face:
      six different centres among six colours. */
  lemma CentresAreTheColours(faces: Faces)
    requires Coded(faces) && CheckFaces(faces).None?
    ensures forall c :: 0 <= c <= 5 ==> c in Centres(faces)
  {
    var xs := Centres(faces);
    assert forall k :: 0 <= k < 6 ==> 0 <= xs[k] <= 5;
    assert forall k, l :: 0 <= k < l < 6 ==> xs[k] != xs[l];
    EveryCode(xs);
  }

  /** On coded faces, the centres are pairwise different exactly when every colour
      is the centre of some face. */
  lemma CentresCover(faces: Faces)
    requires Coded(faces)
    ensures DistinctCentres(faces) <==> forall c :: 0 <= c <= 5 ==> c in Centres(faces)
  {
    var xs := Centres(faces);
    if DistinctCentres(faces) {
      assert forall k :: 0 <= k < 6 ==> 0 <= xs[k] <= 5;
      EveryCode(xs);
    }
    if forall c :: 0 <= c <= 5 ==> c in xs {
      CoverIsDistinct(xs);
    }
  }

  /** `check_faces` reports no error exactly when the six centres are the six
      colours and each colour covers nine of the 54 cells of the net. */
  lemma CheckFacesPasses(faces: Faces)
    requires Coded(faces)
    ensures CheckFaces(faces).None? <==>
              (forall c :: 0 <= c <= 5 ==> c in Centres(faces)) && forall c :: 0 <= c <= 5 ==> multiset(Flat(faces))[c] == 9
  {
    CheckFacesOrder(faces);
    CentresCover(faces);
    forall c | 0 <= c <= 5 ensures Occurrences(faces, c) == multiset(Flat(faces))[c] {
      OccurrencesFlat(faces, c);
    }
  }

  /** `check_faces` reports the centre message exactly when some colour is the
      centre of no face. */
  lemma CentreMessage(faces: Faces)
    requires Coded(faces)
    ensures CheckFaces(faces) == Some(DuplicateCentre) <==> exists c :: 0 <= c <= 5 && c !in Centres(faces)
  {
    CheckFacesOrder(faces);
    CentresCover(faces);
  }

  /** `check_faces` reports the count message only when some colour does not cover
      nine of the 54 cells of the net. */
  lemma CountMessage(faces: Faces)
    requires Coded(faces)
    ensures CheckFaces(faces) == Some(MissingColour) ==> exists c :: 0 <= c <= 5 && multiset(Flat(faces))[c] != 9
  {
    CheckFacesOrder(faces);
    if CheckFaces(faces) == Some(MissingColour) {
      var c :| 0 <= c <= 5 && Occurrences(faces, c) != 9;
      OccurrencesFlat(faces, c);
    }
  }

  /** Six codes that cover the six colours are pairwise different. */
  lemma CoverIsDistinct(xs: seq<int>)
    requires |xs| == 6
    requires forall c :: 0 <= c <= 5 ==> c in xs
    ensures forall k, l :: 0 <= k < l < 6 ==> xs[k] != xs[l]
  {
    forall k, l | 0 <= k < l < 6 ensures xs[k] != xs[l] {
      if xs[k] == xs[l] {
        var ys := xs[..l] + xs[l + 1..];
        forall c | 0 <= c <= 5 ensures c in ys {
          assert c in xs;
          var i :| 0 <= i < 6 && xs[i] == c;
          if i == l {
            assert ys[k] == c;
          } else if i < l {
            assert ys[i] == c;
          } else {
            assert ys[i - 1] == c;
          }
        }
        ValuesFit(ys);
        DistinctFits([0, 1, 2, 3, 4, 5], set x | x in ys);
        assert false;
      }
    }
  }

  /** A sequence has no more different values than entries. */
  lemma {:induction false} ValuesFit(ys: seq<int>)
    ensures |set x | x in ys| <= |ys|
  {
    if ys != [] {
      ValuesFit(ys[1..]);
      assert (set x | x in ys) == (set x | x in ys[1..]) + {ys[0]};
    }
  }

  /** Six pairwise different codes from 0 to 5 are all the codes. */
  lemma EveryCode(xs: seq<int>)
    requires |xs| == 6
    requires forall k :: 0 <= k < 6 ==> 0 <= xs[k] <= 5
    requires forall k, l :: 0 <= k < l < 6 ==> xs[k] != xs[l]
    ensures forall c :: 0 <= c <= 5 ==> c in xs
  {
    forall c | 0 <= c <= 5 ensures c in xs {
      if c !in xs {
        var codes: set<int> := {0, 1, 2, 3, 4, 5};
        assert |codes - {c}| == 5;
        DistinctFits(xs, codes - {c});
        assert false;
      }
    }
  }

  /** Pairwise different values drawn from a set are no more than its size. */
  lemma {:induction false} DistinctFits(xs: seq<int>, s: set<int>)
    requires forall k :: 0 <= k < |xs| ==> xs[k] in s
    requires forall k, l :: 0 <= k < l < |xs| ==> xs[k] != xs[l]
    ensures |xs| <= |s|
  {
    if xs != [] {
      DistinctFits(xs[1..], s - {xs[0]});
    }
  }

  /** A string of colour letters. */
  predicate AllLetters(s: string)
  {
    forall i :: 0 <= i < |s| ==> CodeOf(s[i]).Some?
  }

  /** A string written as the Up face, the three band rows and the Down face of a
      grid is decomposed into that grid. */
  lemma DecomposeNet(up: string, b0: string, b1: string, b2: string, down: string, grid: Faces)
    requires Grid(grid)
    requires AllLetters(up) && AllLetters(b0) && AllLetters(b1) && AllLetters(b2) && AllLetters(down)
    requires Codes(up) == grid[0] && Codes(down) == grid[5]
    requires Codes(b0) == Band(grid, 0) && Codes(b1) == Band(grid, 1) && Codes(b2) == Band(grid, 2)
    ensures Decompose(up + b0 + b1 + b2 + down) == Parsed(grid)
  {
    var s := up + b0 + b1 + b2 + down;
    assert Codes(s) == Codes(up) + Codes(b0) + Codes(b1) + Codes(b2) + Codes(down);
    UnflatFlat(grid);
  }

  /** The inputs of tests/test_lire_entree.py, written as the Up face, the three rows
      of the middle band and the Down face. */
  const Sample: string := "GRBYWYWWO" + "RRRBBGWBYOBY" + "WROBBRWOGOGO" + "WGYRGWOROGOG" + "BWBYYGRYY"
  const SampleWithDigit: string := "GRBYWYWWO" + "RRRBBGWBYOBY" + "WROBBRWOGOGO" + "WGYRGWOROGOG" + "BWBYYGRY1"
  const TwoCentresAlike: string := "YYYYYYYYY" + "OOOOOOOOOBBB" + "BBBBBBRRRRRR" + "RRRGGGGGGGGG" + "WWWWWWWWW"
  const ThreeBlue: string := "YYYYYYYYY" + "OOOOOOOOOOOO" + "OOOBBBRRRGGG" + "OOOOOOOOOOOO" + "WWWWWWWWW"
  const SolidFaces: string := "YYYYYYYYY" + "OOOBBBRRRGGG" + "OOOBBBRRRGGG" + "OOOBBBRRRGGG" + "WWWWWWWWW"

  /** The faces the tests expect for `Sample`, and those of the three validator inputs. */
  const SampleGrid: Faces := [
    [3, 2, 1, 5, 0, 5, 0, 0, 4], [2, 2, 2, 0, 2, 4, 0, 3, 5], [1, 1, 3, 1, 1, 2, 2, 3, 0],
    [0, 1, 5, 0, 4, 3, 4, 2, 4], [4, 1, 5, 4, 3, 4, 3, 4, 3], [1, 0, 1, 5, 5, 3, 2, 5, 5]]
  const TwoCentresAlikeGrid: Faces := [
    [5, 5, 5, 5, 5, 5, 5, 5, 5], [4, 4, 4, 1, 1, 1, 2, 2, 2], [4, 4, 4, 1, 1, 1, 3, 3, 3],
    [4, 4, 4, 2, 2, 2, 3, 3, 3], [1, 1, 1, 2, 2, 2, 3, 3, 3], [0, 0, 0, 0, 0, 0, 0, 0, 0]]
  const ThreeBlueGrid: Faces := [
    [5, 5, 5, 5, 5, 5, 5, 5, 5], [4, 4, 4, 4, 4, 4, 4, 4, 4], [4, 4, 4, 1, 1, 1, 4, 4, 4],
    [4, 4, 4, 2, 2, 2, 4, 4, 4], [4, 4, 4, 3, 3, 3, 4, 4, 4], [0, 0, 0, 0, 0, 0, 0, 0, 0]]
  const SolidGrid: Faces := [
    [5, 5, 5, 5, 5, 5, 5, 5, 5], [4, 4, 4, 4, 4, 4, 4, 4, 4], [1, 1, 1, 1, 1, 1, 1, 1, 1],
    [2, 2, 2, 2, 2, 2, 2, 2, 2], [3, 3, 3, 3, 3, 3, 3, 3, 3], [0, 0, 0, 0, 0, 0, 0, 0, 0]]

  /** The first stray character found from `i` is the first one at or after `i`. */
  lemma {:induction false} StrayFirst(s: string, i: nat, j: nat)
    requires i <= j < |s| && CodeOf(s[j]).None?
    requires forall l :: i <= l < j ==> CodeOf(s[l]).Some?
    ensures Stray(s, i) == Some(j)
    decreases j - i
  {
    if i < j {
      StrayFirst(s, i + 1, j);
    }
  }

  /** The Up face and first band row of `Sample` spell those of `SampleGrid`. */
  lemma SampleTop()
    ensures AllLetters("GRBYWYWWO") && Codes("GRBYWYWWO") == SampleGrid[0]
    ensures AllLetters("RRRBBGWBYOBY") && Codes("RRRBBGWBYOBY") == Band(SampleGrid, 0)
  {
  }

  /** The second band row of `Sample` spells that of `SampleGrid`. */
  lemma SampleMiddle()
    ensures AllLetters("WROBBRWOGOGO") && Codes("WROBBRWOGOGO") == Band(SampleGrid, 1)
  {
  }

  /** The last band row and the Down face of `Sample` spell those of `SampleGrid`. */
  lemma SampleBottom()
    ensures AllLetters("WGYRGWOROGOG") && Codes("WGYRGWOROGOG") == Band(SampleGrid, 2)
    ensures AllLetters("BWBYYGRYY") && Codes("BWBYYGRYY") == SampleGrid[5]
  {
  }

  /** tests/test_lire_entree.py:31-42: the sample string is decomposed into the
      expected six faces. */
  lemma SampleDecomposed()
    ensures Decompose(Sample) == Parsed(SampleGrid)
  {
    SampleTop();
    SampleMiddle();
    SampleBottom();
    DecomposeNet("GRBYWYWWO", "RRRBBGWBYOBY", "WROBBRWOGOGO", "WGYRGWOROGOG", "BWBYYGRYY", SampleGrid);
  }

  /** The Up face and first band row of `TwoCentresAlike` spell those of `TwoCentresAlikeGrid`. */
  lemma TwoCentresAlikeTop()
    ensures AllLetters("YYYYYYYYY") && Codes("YYYYYYYYY") == TwoCentresAlikeGrid[0]
    ensures AllLetters("OOOOOOOOOBBB") && Codes("OOOOOOOOOBBB") == Band(TwoCentresAlikeGrid, 0)
  {
  }

  /** The second band row of `TwoCentresAlike` spells that of `TwoCentresAlikeGrid`. */
  lemma TwoCentresAlikeMiddle()
    ensures AllLetters("BBBBBBRRRRRR") && Codes("BBBBBBRRRRRR") == Band(TwoCentresAlikeGrid, 1)
  {
  }

  /** The last band row and the Down face of `TwoCentresAlike` spell those of `TwoCentresAlikeGrid`. */
  lemma TwoCentresAlikeBottom()
    ensures AllLetters("RRRGGGGGGGGG") && Codes("RRRGGGGGGGGG") == Band(TwoCentresAlikeGrid, 2)
    ensures AllLetters("WWWWWWWWW") && Codes("WWWWWWWWW") == TwoCentresAlikeGrid[5]
  {
  }

  /** `TwoCentresAlike` is decomposed into `TwoCentresAlikeGrid`. */
  lemma TwoCentresAlikeDecomposed()
    ensures Decompose(TwoCentresAlike) == Parsed(TwoCentresAlikeGrid)
  {
    TwoCentresAlikeTop();
    TwoCentresAlikeMiddle();
    TwoCentresAlikeBottom();
    DecomposeNet("YYYYYYYYY", "OOOOOOOOOBBB", "BBBBBBRRRRRR", "RRRGGGGGGGGG", "WWWWWWWWW", TwoCentresAlikeGrid);
  }

  /** The Up face and first band row of `ThreeBlue` spell those of `ThreeBlueGrid`. */
  lemma ThreeBlueTop()
    ensures AllLetters("YYYYYYYYY") && Codes("YYYYYYYYY") == ThreeBlueGrid[0]
    ensures AllLetters("OOOOOOOOOOOO") && Codes("OOOOOOOOOOOO") == Band(ThreeBlueGrid, 0)
  {
  }

  /** The second band row of `ThreeBlue` spells that of `ThreeBlueGrid`. */
  lemma ThreeBlueMiddle()
    ensures AllLetters("OOOBBBRRRGGG") && Codes("OOOBBBRRRGGG") == Band(ThreeBlueGrid, 1)
  {
  }

  /** The last band row and the Down face of `ThreeBlue` spell those of `ThreeBlueGrid`. */
  lemma ThreeBlueBottom()
    ensures AllLetters("OOOOOOOOOOOO") && Codes("OOOOOOOOOOOO") == Band(ThreeBlueGrid, 2)
    ensures AllLetters("WWWWWWWWW") && Codes("WWWWWWWWW") == ThreeBlueGrid[5]
  {
  }

  /** `ThreeBlue` is decomposed into `ThreeBlueGrid`. */
  lemma ThreeBlueDecomposed()
    ensures Decompose(ThreeBlue) == Parsed(ThreeBlueGrid)
  {
    ThreeBlueTop();
    ThreeBlueMiddle();
    ThreeBlueBottom();
    DecomposeNet("YYYYYYYYY", "OOOOOOOOOOOO", "OOOBBBRRRGGG", "OOOOOOOOOOOO", "WWWWWWWWW", ThreeBlueGrid);
  }

  /** The Up face and first band row of `SolidFaces` spell those of `SolidGrid`. */
  lemma SolidFacesTop()
    ensures AllLetters("YYYYYYYYY") && Codes("YYYYYYYYY") == SolidGrid[0]
    ensures AllLetters("OOOBBBRRRGGG") && Codes("OOOBBBRRRGGG") == Band(SolidGrid, 0)
  {
  }

  /** The second band row of `SolidFaces` spells that of `SolidGrid`. */
  lemma SolidFacesMiddle()
    ensures AllLetters("OOOBBBRRRGGG") && Codes("OOOBBBRRRGGG") == Band(SolidGrid, 1)
  {
  }

  /** The last band row and the Down face of `SolidFaces` spell those of `SolidGrid`. */
  lemma SolidFacesBottom()
    ensures AllLetters("OOOBBBRRRGGG") && Codes("OOOBBBRRRGGG") == Band(SolidGrid, 2)
    ensures AllLetters("WWWWWWWWW") && Codes("WWWWWWWWW") == SolidGrid[5]
  {
  }

  /** `SolidFaces` is decomposed into `SolidGrid`. */
  lemma SolidFacesDecomposed()
    ensures Decompose(SolidFaces) == Parsed(SolidGrid)
  {
    SolidFacesTop();
    SolidFacesMiddle();
    SolidFacesBottom();
    DecomposeNet("YYYYYYYYY", "OOOBBBRRRGGG", "OOOBBBRRRGGG", "OOOBBBRRRGGG", "WWWWWWWWW", SolidGrid);
  }

  /** tests/test_lire_entree.py:22-24: a 14-character string and a 54-character
      string ending in a digit are refused. */
  lemma RefusedInputs()
    ensures Decompose("mon beau sapin") == WrongLength(14)
    ensures Decompose(SampleWithDigit) == UnknownLetter(53)
  {
    assert CodeOf(SampleWithDigit[53]).None?;
    assert forall i :: 0 <= i < 53 ==> CodeOf(SampleWithDigit[i]).Some?;
    StrayFirst(SampleWithDigit, 0, 53);
  }

  /** Two faces centred Blue and two centred Red, every colour nine times. */
  lemma TwoCentresAlikeVerdict()
    ensures NineEach(TwoCentresAlikeGrid)
    ensures CheckFaces(TwoCentresAlikeGrid) == Some(DuplicateCentre)
  {
    assert TwoCentresAlikeGrid[1][4] == TwoCentresAlikeGrid[2][4];
  }

  /** Six different centres, but three Blue cells. */
  lemma ThreeBlueVerdict()
    ensures Occurrences(ThreeBlueGrid, 1) == 3
    ensures CheckFaces(ThreeBlueGrid) == Some(MissingColour)
  {
  }

  /** Six solid faces of six colours. */
  lemma SolidVerdict()
    ensures CheckFaces(SolidGrid).None?
  {
  }

  /** tests/test_lire_entree.py:50-57: two faces centred Blue and two centred Red are
      reported as such, although every colour occurs nine times. */
  lemma CentresChecked()
    ensures Decompose(TwoCentresAlike).Parsed?
    ensures NineEach(Decompose(TwoCentresAlike).faces)
    ensures CheckFaces(Decompose(TwoCentresAlike).faces) == Some(DuplicateCentre)
  {
    TwoCentresAlikeDecomposed();
    TwoCentresAlikeVerdict();
  }

  /** tests/test_lire_entree.py:59-68: six different centres, but only three Blue cells. */
  lemma CountsChecked()
    ensures Decompose(ThreeBlue).Parsed?
    ensures DistinctCentres(Decompose(ThreeBlue).faces)
    ensures Occurrences(Decompose(ThreeBlue).faces, 1) == 3
    ensures CheckFaces(Decompose(ThreeBlue).faces) == Some(MissingColour)
  {
    ThreeBlueDecomposed();
    ThreeBlueVerdict();
  }

  /** tests/test_lire_entree.py:70-75: six solid faces of six colours pass. */
  lemma SolidFacesPass()
    ensures Decompose(SolidFaces).Parsed?
    ensures CheckFaces(Decompose(SolidFaces).faces).None?
  {
    SolidFacesDecomposed();
    SolidVerdict();
  }
}
