/** The picture `Cube.__str__` draws (Cube.py:70-148): the net of the cube with
    the Up face on top, Left, Front, Right and Back side by side in the middle and
    the Down face below. Each cell is read from one entry of one piece, or is a
    face's fixed centre code, and is drawn by the code-to-letter map `codeToColor`,
    which is a parameter `glyph` here. */
module Display {
  import opened Colours
  import opened Pieces
  import opened Facelets

  /** A cell of the picture: entry `slot` of a piece, or the fixed centre code of a face. */
  datatype Cell = Entry(piece: Piece, slot: nat) | Centre(code: int)

  /** The nine cells of a face in reading order: the grids `up`, `left`, `front`,
      `right`, `back` and `down` of `__str__`. */
  function Cells(f: Face): (cells: seq<Cell>)
    ensures |cells| == 9
    ensures forall c :: 0 <= c < 9 && cells[c].Entry? ==> cells[c].slot < Arity(cells[c].piece)
  {
    match f
    case Up =>
      [Entry(BLU, 2), Entry(BU, 1), Entry(RBU, 2),
       Entry(LU, 1), Centre(5), Entry(RU, 1),
       Entry(LFU, 2), Entry(FU, 1), Entry(FRU, 2)]
    case Left =>
      [Entry(BLU, 1), Entry(LU, 0), Entry(LFU, 0),
       Entry(BL, 1), Centre(4), Entry(FL, 1),
       Entry(BLD, 1), Entry(LD, 0), Entry(LFD, 0)]
    case Front =>
      [Entry(LFU, 1), Entry(FU, 0), Entry(FRU, 0),
       Entry(FL, 0), Centre(1), Entry(FR, 0),
       Entry(LFD, 1), Entry(FD, 0), Entry(FRD, 0)]
    case Right =>
      [Entry(FRU, 1), Entry(RU, 0), Entry(RBU, 0),
       Entry(FR, 1), Centre(2), Entry(BR, 1),
       Entry(FRD, 1), Entry(RD, 0), Entry(RBD, 0)]
    case Back =>
      [Entry(RBU, 1), Entry(BU, 0), Entry(BLU, 0),
       Entry(BR, 0), Centre(3), Entry(BL, 0),
       Entry(RBD, 1), Entry(BD, 0), Entry(BLD, 0)]
    case Down =>
      [Entry(LFD, 2), Entry(FD, 1), Entry(FRD, 2),
       Entry(LD, 1), Centre(0), Entry(RD, 1),
       Entry(BLD, 2), Entry(BD, 1), Entry(RBD, 2)]
  }

  /** The faces in the order the picture and the facelet string list them. */
  const NetOrder: seq<Face> := [Up, Left, Front, Right, Back, Down]

  /** The position of a face in `NetOrder`. */
  function NetIndex(f: Face): (k: nat)
    ensures k < 6 && NetOrder[k] == f
  {
    match f
    case Up => 0
    case Left => 1
    case Front => 2
    case Right => 3
    case Back => 4
    case Down => 5
  }

  /** The cell of face `Facing(p, i)` that shows entry `i` of piece `p`. */
  function Spot(p: Piece, i: nat): (c: nat)
    requires i < Arity(p)
    ensures c < 9
  {
    var spots: seq<nat> :=
      match p
      case FU => [1, 7]       case FRU => [2, 0, 8]   case FR => [5, 3]
      case FRD => [8, 6, 2]   case FD => [7, 1]       case LFD => [8, 6, 0]
      case FL => [3, 5]       case LFU => [2, 0, 6]   case LU => [1, 3]
      case LD => [7, 3]       case BU => [1, 1]       case RBU => [2, 0, 2]
      case BR => [3, 5]       case RBD => [8, 6, 8]   case BD => [7, 7]
      case BLD => [8, 6, 6]   case BL => [5, 3]       case BLU => [2, 0, 0]
      case RU => [1, 5]       case RD => [7, 5];
    spots[i]
  }

  /** The centre cell of a face is the face's own colour code; every other cell
      shows an entry. */
  lemma CellsCentre(f: Face)
    ensures Cells(f)[4] == Centre(FaceCode(f))
    ensures forall c :: 0 <= c < 9 && c != 4 ==> Cells(f)[c].Entry?
  {
  }

  /** Every entry a face shows faces that face: its letter names it. */
  lemma CellFacesItsFace(f: Face, c: nat)
    requires c < 9 && Cells(f)[c].Entry?
    ensures Facing(Cells(f)[c].piece, Cells(f)[c].slot) == f
  {
    match f
    case Up =>
    case Left =>
    case Front =>
    case Right =>
    case Back =>
    case Down =>
  }

  /** No cell appears twice on a face. */
  lemma CellsDistinct(f: Face)
    ensures forall c, d :: 0 <= c < d < 9 ==> Cells(f)[c] != Cells(f)[d]
  {
    match f
    case Up =>
    case Left =>
    case Front =>
    case Right =>
    case Back =>
    case Down =>
  }

  /** Entry `i` of piece `p` is shown at `Spot(p, i)` on the face its letter names. */
  lemma SpotShows(p: Piece, i: nat)
    requires i < Arity(p)
    ensures Cells(Facing(p, i))[Spot(p, i)] == Entry(p, i)
  {
  }

  /** Every piece entry is shown once and only once: a cell that shows entry `i` of
      piece `p` is the cell `Spot(p, i)` of the face `Facing(p, i)`. */
  lemma ShownOnce(f: Face, c: nat, p: Piece, i: nat)
    requires c < 9 && Cells(f)[c] == Entry(p, i)
    ensures i < Arity(p) && f == Facing(p, i) && c == Spot(p, i)
  {
    CellFacesItsFace(f, c);
    SpotShows(p, i);
    CellsDistinct(f);
  }

  /** Every piece has at least one entry per letter of its identifier: the entries
      `__str__` indexes exist. */
  ghost predicate Readable(m: State)
  {
    forall p: Piece :: p in m && |m[p]| >= Arity(p)
  }

  /** The code a cell shows. */
  function Shown(m: State, cell: Cell): int
    requires Readable(m)
    requires cell.Entry? ==> cell.slot < Arity(cell.piece)
  {
    match cell
    case Entry(p, i) => m[p][i]
    case Centre(code) => code
  }

  /** The nine codes a face shows. */
  function FaceOf(m: State, f: Face): (face: seq<int>)
    requires Readable(m)
    ensures |face| == 9
  {
    seq(9, c requires 0 <= c < 9 => Shown(m, Cells(f)[c]))
  }

  /** The six faces shown, in net order. */
  function FacesOf(m: State): (faces: Faces)
    requires Readable(m)
    ensures Grid(faces)
  {
    [FaceOf(m, Up), FaceOf(m, Left), FaceOf(m, Front), FaceOf(m, Right), FaceOf(m, Back), FaceOf(m, Down)]
  }

  /** The shown faces read each entry where its letter says and show the centres
      5, 4, 1, 2, 3, 0 (Yellow, Orange, Blue, Red, Green, White). */
  lemma FacesShowEntries(m: State)
    requires Readable(m)
    ensures forall p: Piece, i :: 0 <= i < Arity(p) ==> FacesOf(m)[NetIndex(Facing(p, i))][Spot(p, i)] == m[p][i]
    ensures forall k :: 0 <= k < 6 ==> FacesOf(m)[k][4] == FaceCode(NetOrder[k])
    ensures Centres(FacesOf(m)) == [5, 4, 1, 2, 3, 0]
  {
    forall p: Piece, i | 0 <= i < Arity(p)
      ensures FacesOf(m)[NetIndex(Facing(p, i))][Spot(p, i)] == m[p][i]
    {
      SpotShows(p, i);
    }
    forall k | 0 <= k < 6 ensures FacesOf(m)[k][4] == FaceCode(NetOrder[k]) {
      CellsCentre(NetOrder[k]);
    }
  }

  /** Every entry of every piece is a colour code. */
  ghost predicate EntriesCoded(m: State)
    requires Readable(m)
  {
    forall p: Piece, i :: 0 <= i < Arity(p) ==> 0 <= m[p][i] <= 5
  }

  /** The shown faces are coded exactly when the entries are. */
  lemma FacesCoded(m: State)
    requires Readable(m)
    ensures Coded(FacesOf(m)) <==> EntriesCoded(m)
  {
    if EntriesCoded(m) {
      CodedEntriesShowCodes(m);
    }
    if Coded(FacesOf(m)) {
      FacesShowEntries(m);
      forall p: Piece, i | 0 <= i < Arity(p) ensures 0 <= m[p][i] <= 5 {
        assert FacesOf(m)[NetIndex(Facing(p, i))][Spot(p, i)] == m[p][i];
      }
    }
  }

  lemma CodedEntriesShowCodes(m: State)
    requires Readable(m) && EntriesCoded(m)
    ensures Coded(FacesOf(m))
  {
    forall k, c | 0 <= k < 6 && 0 <= c < 9 ensures 0 <= FacesOf(m)[k][c] <= 5 {
      CellsCentre(NetOrder[k]);
      assert FacesOf(m)[k] == FaceOf(m, NetOrder[k]);
    }
  }

  /** Every entry shows the colour of the face its letter names. */
  ghost predicate Solved(m: State)
    requires Readable(m)
  {
    forall p: Piece, i :: 0 <= i < Arity(p) ==> m[p][i] == FaceCode(Facing(p, i))
  }

  /** Every face of the picture is one solid colour, that of its centre. */
  predicate Solid(faces: Faces)
    requires Grid(faces)
  {
    forall k, c :: 0 <= k < 6 && 0 <= c < 9 ==> faces[k][c] == faces[k][4]
  }

  /** The picture shows six solid faces exactly when every piece is solved. */
  lemma SolvedIffSolid(m: State)
    requires Readable(m)
    ensures Solved(m) <==> Solid(FacesOf(m))
  {
    if Solved(m) {
      SolvedShowsSolid(m);
    }
    if Solid(FacesOf(m)) {
      SolidMeansSolved(m);
    }
  }

  lemma SolvedShowsSolid(m: State)
    requires Readable(m) && Solved(m)
    ensures Solid(FacesOf(m))
  {
    forall k, c | 0 <= k < 6 && 0 <= c < 9 ensures FacesOf(m)[k][c] == FacesOf(m)[k][4] {
      var f := NetOrder[k];
      assert FacesOf(m)[k] == FaceOf(m, f);
      CellsCentre(f);
      if c != 4 {
        CellFacesItsFace(f, c);
      }
    }
  }

  lemma SolidMeansSolved(m: State)
    requires Readable(m) && Solid(FacesOf(m))
    ensures Solved(m)
  {
    FacesShowEntries(m);
    forall p: Piece, i | 0 <= i < Arity(p) ensures m[p][i] == FaceCode(Facing(p, i)) {
      var k := NetIndex(Facing(p, i));
      assert FacesOf(m)[k][Spot(p, i)] == FacesOf(m)[k][4];
    }
  }

  /** A fresh cube shows six solid faces, the ones the validator accepts. */
  lemma InitialShowsSolid()
    ensures Readable(Initial())
    ensures FacesOf(Initial()) == SolidGrid
    ensures CheckFaces(FacesOf(Initial())).None?
  {
    InitialIsSolved();
    SolvedIffSolid(Initial());
    FacesShowEntries(Initial());
    var faces := FacesOf(Initial());
    forall k | 0 <= k < 6 ensures faces[k] == SolidGrid[k] {
      assert forall c :: 0 <= c < 9 ==> faces[k][c] == SolidGrid[k][c];
    }
    SolidVerdict();
  }

  /** One blank, and the three blanks of an empty block of the net. */
  const Space: string := " "
  const Empty: string := "   "

  /** A row of codes drawn through `glyph`. */
  function Draw(codes: seq<int>, glyph: int -> char): (s: string)
    ensures |s| == |codes| && forall i :: 0 <= i < |codes| ==> s[i] == glyph(codes[i])
  {
    seq(|codes|, i requires 0 <= i < |codes| => glyph(codes[i]))
  }

  /** Row `r` of the Up face: an empty block, then the row, then three empty blocks. */
  function UpLine(faces: Faces, r: nat, glyph: int -> char): string
    requires Grid(faces) && r < 3
  {
    Empty + Space + Draw(Row(faces[0], r), glyph) + Space + Empty + Space + Empty
  }

  /** Row `r` of the Left, Front, Right and Back faces, one blank apart. */
  function BandLine(faces: Faces, r: nat, glyph: int -> char): string
    requires Grid(faces) && r < 3
  {
    Draw(Row(faces[1], r), glyph) + Space + Draw(Row(faces[2], r), glyph) + Space
    + Draw(Row(faces[3], r), glyph) + Space + Draw(Row(faces[4], r), glyph)
  }

  /** Row `r` of the Down face: an empty block, then the row, then one empty block. */
  function DownLine(faces: Faces, r: nat, glyph: int -> char): string
    requires Grid(faces) && r < 3
  {
    Empty + Space + Draw(Row(faces[5], r), glyph) + Space + Empty
  }

  /** The nine lines of the picture, top to bottom. */
  function Lines(faces: Faces, glyph: int -> char): (lines: seq<string>)
    requires Grid(faces)
    ensures |lines| == 9
  {
    [UpLine(faces, 0, glyph), UpLine(faces, 1, glyph), UpLine(faces, 2, glyph),
     BandLine(faces, 0, glyph), BandLine(faces, 1, glyph), BandLine(faces, 2, glyph),
     DownLine(faces, 0, glyph), DownLine(faces, 1, glyph), DownLine(faces, 2, glyph)]
  }

  /** The total length of some lines. */
  function Width(lines: seq<string>): nat
  {
    if lines == [] then 0 else |lines[0]| + Width(lines[1..])
  }

  /** The width of nine lines is the sum of their lengths. */
  lemma WidthOfNine(ls: seq<string>)
    requires |ls| == 9
    ensures Width(ls) == |ls[0]| + |ls[1]| + |ls[2]| + |ls[3]| + |ls[4]| + |ls[5]| + |ls[6]| + |ls[7]| + |ls[8]|
  {
    assert ls[8..][1..] == [];
    assert Width(ls[8..]) == |ls[8]|;
    assert ls[7..][1..] == ls[8..];
    assert Width(ls[7..]) == |ls[7]| + Width(ls[8..]);
    assert ls[6..][1..] == ls[7..];
    assert Width(ls[6..]) == |ls[6]| + Width(ls[7..]);
    assert ls[5..][1..] == ls[6..];
    assert Width(ls[5..]) == |ls[5]| + Width(ls[6..]);
    assert ls[4..][1..] == ls[5..];
    assert Width(ls[4..]) == |ls[4]| + Width(ls[5..]);
    assert ls[3..][1..] == ls[4..];
    assert Width(ls[3..]) == |ls[3]| + Width(ls[4..]);
    assert ls[2..][1..] == ls[3..];
    assert Width(ls[2..]) == |ls[2]| + Width(ls[3..]);
    assert ls[1..][1..] == ls[2..];
    assert Width(ls[1..]) == |ls[1]| + Width(ls[2..]);
    assert ls[0..][1..] == ls[1..];
    assert Width(ls[0..]) == |ls[0]| + Width(ls[1..]);
    assert ls[0..] == ls;
  }

  /** `'\n'.join(lines)`: the lines and one break between each two of them. */
  function Join(lines: seq<string>): (s: string)
    ensures lines != [] ==> |s| == Width(lines) + |lines| - 1
  {
    if lines == [] then ""
    else if |lines| == 1 then lines[0]
    else lines[0] + "\n" + Join(lines[1..])
  }

  /** `Cube.__str__`: nine lines, three of 15 characters for the Up face, three of
      15 for the side faces and three of 11 for the Down face, joined by 8 breaks. */
  function Render(m: State, glyph: int -> char): (s: string)
    requires Readable(m)
    ensures |s| == 3 * 15 + 3 * 15 + 3 * 11 + 8
  {
    var faces := FacesOf(m);
    EdgeLinesLayout(faces, 0, glyph); EdgeLinesLayout(faces, 1, glyph); EdgeLinesLayout(faces, 2, glyph);
    BandLineLayout(faces, 0, glyph); BandLineLayout(faces, 1, glyph); BandLineLayout(faces, 2, glyph);
    var ls := Lines(faces, glyph);
    WidthOfNine(ls);
    Join(ls)
  }

  /** The Up and Down rows are indented by four blanks; an Up row is 15 characters
      long and a Down row 11, blanks after the three cells. */
  lemma EdgeLinesLayout(faces: Faces, r: nat, glyph: int -> char)
    requires Grid(faces) && r < 3
    ensures |UpLine(faces, r, glyph)| == 15 && |DownLine(faces, r, glyph)| == 11
    ensures forall j :: 0 <= j < 15 && (j < 4 || 7 <= j) ==> UpLine(faces, r, glyph)[j] == ' '
    ensures forall j :: 4 <= j < 7 ==> UpLine(faces, r, glyph)[j] == glyph(faces[0][3 * r + j - 4])
    ensures forall j :: 0 <= j < 11 && (j < 4 || 7 <= j) ==> DownLine(faces, r, glyph)[j] == ' '
    ensures forall j :: 4 <= j < 7 ==> DownLine(faces, r, glyph)[j] == glyph(faces[5][3 * r + j - 4])
  {
  }

  /** A middle row is 15 characters: the Left, Front, Right and Back rows with a blank
      at positions 3, 7 and 11 between them. */
  lemma BandLineLayout(faces: Faces, r: nat, glyph: int -> char)
    requires Grid(faces) && r < 3
    ensures |BandLine(faces, r, glyph)| == 15
    ensures BandLine(faces, r, glyph)[3] == ' ' && BandLine(faces, r, glyph)[7] == ' ' && BandLine(faces, r, glyph)[11] == ' '
    ensures forall j :: 0 <= j < 3 ==> BandLine(faces, r, glyph)[j] == glyph(faces[1][3 * r + j])
    ensures forall j :: 4 <= j < 7 ==> BandLine(faces, r, glyph)[j] == glyph(faces[2][3 * r + j - 4])
    ensures forall j :: 8 <= j < 11 ==> BandLine(faces, r, glyph)[j] == glyph(faces[3][3 * r + j - 8])
    ensures forall j :: 12 <= j < 15 ==> BandLine(faces, r, glyph)[j] == glyph(faces[4][3 * r + j - 12])
  {
  }

  /** Joining lines that hold no line break gives a text with one line break fewer
      than lines. */
  lemma {:induction false} JoinBreaks(lines: seq<string>)
    requires lines != []
    requires forall n :: 0 <= n < |lines| ==> '\n' !in lines[n]
    ensures multiset(Join(lines))['\n'] == |lines| - 1
  {
    if |lines| > 1 {
      JoinBreaks(lines[1..]);
      assert multiset(lines[0])['\n'] == 0;
      assert multiset(Join(lines)) == multiset(lines[0]) + multiset("\n") + multiset(Join(lines[1..]));
    }
  }

  /** The code-to-letter map draws every colour code as a visible character. */
  predicate Visible(glyph: int -> char)
  {
    forall x :: 0 <= x <= 5 ==> glyph(x) != ' ' && glyph(x) != '\n'
  }

  /** The picture of a coded cube has nine lines: exactly eight line breaks. */
  lemma RenderNineLines(m: State, glyph: int -> char)
    requires Readable(m) && EntriesCoded(m) && Visible(glyph)
    ensures multiset(Render(m, glyph))['\n'] == 8
  {
    var faces := FacesOf(m);
    FacesCoded(m);
    forall r | 0 <= r < 3
      ensures '\n' !in UpLine(faces, r, glyph) && '\n' !in BandLine(faces, r, glyph) && '\n' !in DownLine(faces, r, glyph)
    {
      EdgeLinesLayout(faces, r, glyph);
      BandLineLayout(faces, r, glyph);
    }
    JoinBreaks(Lines(faces, glyph));
  }

  /** The characters of `s` other than blanks and line breaks. */
  function Strip(s: string): string
  {
    if s == [] then ""
    else (if s[0] == ' ' || s[0] == '\n' then "" else [s[0]]) + Strip(s[1..])
  }

  lemma {:induction false} StripAppend(a: string, b: string)
    ensures Strip(a + b) == Strip(a) + Strip(b)
  {
    if a == [] {
      assert a + b == b;
    } else {
      assert (a + b)[1..] == a[1..] + b;
      StripAppend(a[1..], b);
    }
  }

  lemma {:induction false} StripBlank(s: string)
    requires forall i :: 0 <= i < |s| ==> s[i] == ' '
    ensures Strip(s) == ""
  {
    if s != [] {
      StripBlank(s[1..]);
    }
  }

  lemma {:induction false} StripVisible(s: string)
    requires forall i :: 0 <= i < |s| ==> s[i] != ' ' && s[i] != '\n'
    ensures Strip(s) == s
  {
    if s != [] {
      StripVisible(s[1..]);
    }
  }

  lemma DrawAppend(a: seq<int>, b: seq<int>, glyph: int -> char)
    ensures Draw(a + b, glyph) == Draw(a, glyph) + Draw(b, glyph)
  {
  }

  /** Stripping a row drawn from coded cells with a visible map leaves it whole. */
  lemma StripDrawn(codes: seq<int>, glyph: int -> char)
    requires CodesOnly(codes) && Visible(glyph)
    ensures Strip(Draw(codes, glyph)) == Draw(codes, glyph)
  {
    StripVisible(Draw(codes, glyph));
  }

  /** Stripping an Up or Down row leaves its three cells. */
  lemma StripEdgeLines(faces: Faces, r: nat, glyph: int -> char)
    requires Coded(faces) && r < 3 && Visible(glyph)
    ensures Strip(UpLine(faces, r, glyph)) == Draw(Row(faces[0], r), glyph)
    ensures Strip(DownLine(faces, r, glyph)) == Draw(Row(faces[5], r), glyph)
  {
    StripBlank(Empty + Space);
    StripBlank(Space + Empty + Space + Empty);
    StripBlank(Space + Empty);
    var up, down := Draw(Row(faces[0], r), glyph), Draw(Row(faces[5], r), glyph);
    StripDrawn(Row(faces[0], r), glyph);
    StripDrawn(Row(faces[5], r), glyph);
    assert UpLine(faces, r, glyph) == (Empty + Space) + up + (Space + Empty + Space + Empty);
    StripAppend(Empty + Space, up);
    StripAppend((Empty + Space) + up, Space + Empty + Space + Empty);
    assert DownLine(faces, r, glyph) == (Empty + Space) + down + (Space + Empty);
    StripAppend(Empty + Space, down);
    StripAppend((Empty + Space) + down, Space + Empty);
  }

  /** Stripping a middle row leaves the twelve cells of that band row. */
  lemma StripBandLine(faces: Faces, r: nat, glyph: int -> char)
    requires Coded(faces) && r < 3 && Visible(glyph)
    ensures Strip(BandLine(faces, r, glyph)) == Draw(Band(faces, r), glyph)
  {
    var a, b := Draw(Row(faces[1], r), glyph), Draw(Row(faces[2], r), glyph);
    var c, d := Draw(Row(faces[3], r), glyph), Draw(Row(faces[4], r), glyph);
    StripDrawn(Row(faces[1], r), glyph);
    StripDrawn(Row(faces[2], r), glyph);
    StripDrawn(Row(faces[3], r), glyph);
    StripDrawn(Row(faces[4], r), glyph);
    StripBlank(Space);
    StripAppend(a, Space);
    StripAppend(a + Space, b);
    StripAppend(a + Space + b, Space);
    StripAppend(a + Space + b + Space, c);
    StripAppend(a + Space + b + Space + c, Space);
    StripAppend(a + Space + b + Space + c + Space, d);
    DrawAppend(Row(faces[1], r), Row(faces[2], r), glyph);
    DrawAppend(Row(faces[1], r) + Row(faces[2], r), Row(faces[3], r), glyph);
    DrawAppend(Row(faces[1], r) + Row(faces[2], r) + Row(faces[3], r), Row(faces[4], r), glyph);
  }

  /** Stripping joined lines strips each line. */
  lemma StripBreak(a: string, b: string)
    ensures Strip(a + "\n" + b) == Strip(a) + Strip(b)
  {
    StripAppend(a, "\n");
    StripAppend(a + "\n", b);
  }

  /** Stripping joined lines from line `n` on strips line `n`, then the rest. */
  lemma StripStep(ls: seq<string>, n: nat)
    requires n + 1 < |ls|
    ensures Strip(Join(ls[n..])) == Strip(ls[n]) + Strip(Join(ls[n + 1..]))
  {
    assert ls[n..][1..] == ls[n + 1..];
    StripBreak(ls[n], Join(ls[n + 1..]));
  }

  lemma StripThree(ls: seq<string>, n: nat)
    requires n + 3 < |ls|
    ensures Strip(Join(ls[n..])) == Strip(ls[n]) + (Strip(ls[n + 1]) + (Strip(ls[n + 2]) + Strip(Join(ls[n + 3..]))))
  {
    StripStep(ls, n);
    StripStep(ls, n + 1);
    StripStep(ls, n + 2);
  }

  /** Stripping nine joined lines strips each line. */
  lemma StripNineLines(ls: seq<string>)
    requires |ls| == 9
    ensures Strip(Join(ls)) == Strip(ls[0]) + (Strip(ls[1]) + (Strip(ls[2]) + (Strip(ls[3]) + (Strip(ls[4])
                               + (Strip(ls[5]) + (Strip(ls[6]) + (Strip(ls[7]) + Strip(ls[8]))))))))
  {
    assert ls[0..] == ls;
    assert ls[8..] == [ls[8]];
    StripThree(ls, 0);
    StripThree(ls, 3);
    StripStep(ls, 6);
    StripStep(ls, 7);
  }

  /** A face drawn row by row is the face drawn whole. */
  lemma DrawRows(face: seq<int>, glyph: int -> char)
    requires |face| == 9
    ensures Draw(face, glyph) == Draw(Row(face, 0), glyph) + (Draw(Row(face, 1), glyph) + Draw(Row(face, 2), glyph))
  {
    assert face == Row(face, 0) + Row(face, 1) + Row(face, 2);
    DrawAppend(Row(face, 1), Row(face, 2), glyph);
    DrawAppend(Row(face, 0), Row(face, 1) + Row(face, 2), glyph);
  }

  /** Drawing the net drawn in input order draws its five parts in turn. */
  lemma DrawFlat(faces: Faces, glyph: int -> char)
    requires Grid(faces)
    ensures Draw(Flat(faces), glyph) == Draw(faces[0], glyph) + (Draw(Band(faces, 0), glyph) + (Draw(Band(faces, 1), glyph)
                                        + (Draw(Band(faces, 2), glyph) + Draw(faces[5], glyph))))
  {
    var up, b0, b1, b2, down := faces[0], Band(faces, 0), Band(faces, 1), Band(faces, 2), faces[5];
    assert Flat(faces) == up + (b0 + (b1 + (b2 + down)));
    DrawAppend(b2, down, glyph);
    DrawAppend(b1, b2 + down, glyph);
    DrawAppend(b0, b1 + (b2 + down), glyph);
    DrawAppend(up, b0 + (b1 + (b2 + down)), glyph);
  }

  /** The stripped picture lists the faces' cells as the facelet string does: the
      Up face, the three band rows, the Down face. */
  lemma StripRender(m: State, glyph: int -> char)
    requires Readable(m) && EntriesCoded(m) && Visible(glyph)
    ensures Strip(Render(m, glyph)) == Draw(Flat(FacesOf(m)), glyph)
  {
    var faces := FacesOf(m);
    FacesCoded(m);
    StripNineLines(Lines(faces, glyph));
    StripEdgeLines(faces, 0, glyph);
    StripEdgeLines(faces, 1, glyph);
    StripEdgeLines(faces, 2, glyph);
    StripBandLine(faces, 0, glyph);
    StripBandLine(faces, 1, glyph);
    StripBandLine(faces, 2, glyph);
    DrawRows(faces[0], glyph);
    DrawRows(faces[5], glyph);
    DrawFlat(faces, glyph);
  }

  /** With `codeToColor` drawing the letters W B R G O Y, the stripped picture is
      the facelet string of the shown faces, and reading it back gives those faces. */
  lemma RenderSpellsFacelets(m: State, glyph: int -> char)
    requires Readable(m) && EntriesCoded(m)
    requires forall x :: 0 <= x <= 5 ==> glyph(x) == Letter(x)
    ensures Coded(FacesOf(m))
    ensures Strip(Render(m, glyph)) == Encode(FacesOf(m))
    ensures Decompose(Strip(Render(m, glyph))) == Parsed(FacesOf(m))
  {
    var faces := FacesOf(m);
    FacesCoded(m);
    assert Visible(glyph);
    StripRender(m, glyph);
    FlatCells(faces);
    assert Draw(Flat(faces), glyph) == Encode(faces);
    DecomposeEncode(faces);
  }

  /** A cube whose picture shows the faces a facelet string describes is drawn as
      that string, once blanks and line breaks are stripped. */
  lemma RenderReadsBack(m: State, glyph: int -> char, s: string)
    requires Readable(m)
    requires forall x :: 0 <= x <= 5 ==> glyph(x) == Letter(x)
    requires Decompose(s) == Parsed(FacesOf(m))
    ensures Strip(Render(m, glyph)) == s
  {
    EncodeDecompose(s);
    FacesCoded(m);
    RenderSpellsFacelets(m, glyph);
  }

  /** A fresh cube is drawn, once stripped, as the six solid faces of the validator's
      accepted example. */
  lemma InitialRendersSolid(glyph: int -> char)
    requires forall x :: 0 <= x <= 5 ==> glyph(x) == Letter(x)
    ensures Readable(Initial())
    ensures Strip(Render(Initial(), glyph)) == SolidFaces
  {
    InitialShowsSolid();
    SolidFacesDecomposed();
    RenderReadsBack(Initial(), glyph, SolidFaces);
  }
}
