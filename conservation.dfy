/** What the turns conserve: the number of facelets of each colour, and the rule
    that `edit_cube` enforces on every piece. */
module Conservation {
  import opened Outcomes
  import opened Colours
  import opened Pieces
  import opened Turns
  import opened TurnLaws

  /** How many of the 48 moving facelets carry colour code `c`. */
  function Tally(m: State, c: int): nat
    requires Keyed(m)
  {
    Count(m[FU], c)
      + Count(m[FRU], c)
      + Count(m[FR], c)
      + Count(m[FRD], c)
      + Count(m[FD], c)
      + Count(m[LFD], c)
      + Count(m[FL], c)
      + Count(m[LFU], c)
      + Count(m[LU], c)
      + Count(m[LD], c)
      + Count(m[BU], c)
      + Count(m[RBU], c)
      + Count(m[BR], c)
      + Count(m[RBD], c)
      + Count(m[BD], c)
      + Count(m[BLD], c)
      + Count(m[BL], c)
      + Count(m[BLU], c)
      + Count(m[RU], c)
      + Count(m[RD], c)
  }

  /** `Count` of a corner or an edge, written out. */
  lemma CountShort(s: seq<int>, c: int)
    requires 2 <= |s| <= 3
    ensures Count(s, c) == (if s[0] == c then 1 else 0) + (if s[1] == c then 1 else 0)
                           + (if |s| == 3 && s[2] == c then 1 else 0)
  {
    var one := s[..1];
    assert one[..0] == [] && one[0] == s[0];
    assert Count(one, c) == if s[0] == c then 1 else 0;
    var two := s[..2];
    assert two[..1] == one && two[1] == s[1];
    if |s| == 3 {
      assert s[..2] == two;
    } else {
      assert s == two;
    }
  }

  /** Reordering the entries of a corner keeps its colours. */
  lemma ReorderedCorner(s: seq<int>, i: nat, j: nat, k: nat, c: int)
    requires |s| == 3 && i < 3 && j < 3 && k < 3 && i != j && j != k && i != k
    ensures Count(Pick3(s, i, j, k), c) == Count(s, c)
  {
    CountShort(s, c);
    CountShort(Pick3(s, i, j, k), c);
  }

  /** Exchanging the entries of an edge keeps its colours. */
  lemma SwappedEdge(s: seq<int>, c: int)
    requires |s| == 2
    ensures Count(Swap(s), c) == Count(s, c)
  {
    CountShort(s, c);
    CountShort(Swap(s), c);
  }

  /** Reordering the entries of a corner keeps the rule of `edit_cube`. */
  lemma ReorderedCornerAccepted(s: seq<int>, i: nat, j: nat, k: nat)
    requires |s| == 3 && i < 3 && j < 3 && k < 3 && i != j && j != k && i != k
    ensures Accepted(s) ==> Accepted(Pick3(s, i, j, k))
  {
    if Accepted(s) {
      var r := Pick3(s, i, j, k);
      assert Group(s[0]) != Group(s[1]) && Group(s[0]) != Group(s[2]) && Group(s[1]) != Group(s[2]);
      assert Group(s[i]).Some? && Group(s[j]).Some? && Group(s[k]).Some?;
      assert Group(r[0]) != Group(r[1]) && Group(r[0]) != Group(r[2]) && Group(r[1]) != Group(r[2]);
    }
  }

  /** Exchanging the entries of an edge keeps the rule of `edit_cube`. */
  lemma SwappedEdgeAccepted(s: seq<int>)
    requires |s| == 2
    ensures Accepted(s) ==> Accepted(Swap(s))
  {
    if Accepted(s) {
      assert Group(s[0]) != Group(s[1]);
    }
  }

  /** Counting rule for `rot_L`: `r` holds at each key the colours of the piece the turn
      takes there from `m`. */
  lemma LeftSum(m: State, r: State, c: int)
    requires Keyed(m) && Keyed(r)
    requires forall p :: p !in LeftRing ==> r[p] == m[p]
    requires Count(r[LFD], c) == Count(m[LFU], c) &&
             Count(r[LFU], c) == Count(m[BLU], c) &&
             Count(r[BLU], c) == Count(m[BLD], c) &&
             Count(r[BLD], c) == Count(m[LFD], c) &&
             Count(r[LD], c) == Count(m[FL], c) &&
             Count(r[FL], c) == Count(m[LU], c) &&
             Count(r[LU], c) == Count(m[BL], c) &&
             Count(r[BL], c) == Count(m[LD], c)
    ensures Tally(r, c) == Tally(m, c)
  {
    assert r[FU] == m[FU] && r[FRU] == m[FRU] && r[FR] == m[FR] && r[FRD] == m[FRD];
    assert r[FD] == m[FD] && r[BU] == m[BU] && r[RBU] == m[RBU] && r[BR] == m[BR];
    assert r[RBD] == m[RBD] && r[BD] == m[BD] && r[RU] == m[RU] && r[RD] == m[RD];
  }

  /** Counting rule for `rot_Li`: `r` holds at each key the colours of the piece the turn
      takes there from `m`. */
  lemma LeftInverseSum(m: State, r: State, c: int)
    requires Keyed(m) && Keyed(r)
    requires forall p :: p !in LeftRing ==> r[p] == m[p]
    requires Count(r[BLU], c) == Count(m[LFU], c) &&
             Count(r[LFU], c) == Count(m[LFD], c) &&
             Count(r[LFD], c) == Count(m[BLD], c) &&
             Count(r[BLD], c) == Count(m[BLU], c) &&
             Count(r[LD], c) == Count(m[BL], c) &&
             Count(r[BL], c) == Count(m[LU], c) &&
             Count(r[LU], c) == Count(m[FL], c) &&
             Count(r[FL], c) == Count(m[LD], c)
    ensures Tally(r, c) == Tally(m, c)
  {
    assert r[FU] == m[FU] && r[FRU] == m[FRU] && r[FR] == m[FR] && r[FRD] == m[FRD];
    assert r[FD] == m[FD] && r[BU] == m[BU] && r[RBU] == m[RBU] && r[BR] == m[BR];
    assert r[RBD] == m[RBD] && r[BD] == m[BD] && r[RU] == m[RU] && r[RD] == m[RD];
  }

  /** Counting rule for `rot_R`: `r` holds at each key the colours of the piece the turn
      takes there from `m`. */
  lemma RightSum(m: State, r: State, c: int)
    requires Keyed(m) && Keyed(r)
    requires forall p :: p !in RightRing ==> r[p] == m[p]
    requires Count(r[RBU], c) == Count(m[FRU], c) &&
             Count(r[FRU], c) == Count(m[FRD], c) &&
             Count(r[FRD], c) == Count(m[RBD], c) &&
             Count(r[RBD], c) == Count(m[RBU], c) &&
             Count(r[RD], c) == Count(m[BR], c) &&
             Count(r[BR], c) == Count(m[RU], c) &&
             Count(r[RU], c) == Count(m[FR], c) &&
             Count(r[FR], c) == Count(m[RD], c)
    ensures Tally(r, c) == Tally(m, c)
  {
    assert r[FU] == m[FU] && r[FD] == m[FD] && r[LFD] == m[LFD] && r[FL] == m[FL];
    assert r[LFU] == m[LFU] && r[LU] == m[LU] && r[LD] == m[LD] && r[BU] == m[BU];
    assert r[BD] == m[BD] && r[BLD] == m[BLD] && r[BL] == m[BL] && r[BLU] == m[BLU];
  }

  /** Counting rule for `rot_Ri`: `r` holds at each key the colours of the piece the turn
      takes there from `m`. */
  lemma RightInverseSum(m: State, r: State, c: int)
    requires Keyed(m) && Keyed(r)
    requires forall p :: p !in RightRing ==> r[p] == m[p]
    requires Count(r[FRD], c) == Count(m[FRU], c) &&
             Count(r[FRU], c) == Count(m[RBU], c) &&
             Count(r[RBU], c) == Count(m[RBD], c) &&
             Count(r[RBD], c) == Count(m[FRD], c) &&
             Count(r[RD], c) == Count(m[FR], c) &&
             Count(r[FR], c) == Count(m[RU], c) &&
             Count(r[RU], c) == Count(m[BR], c) &&
             Count(r[BR], c) == Count(m[LD], c)
    ensures Tally(r, c) == Tally(m, c) - Count(m[RD], c) + Count(m[LD], c)
  {
    assert r[FU] == m[FU] && r[FD] == m[FD] && r[LFD] == m[LFD] && r[FL] == m[FL];
    assert r[LFU] == m[LFU] && r[LU] == m[LU] && r[LD] == m[LD] && r[BU] == m[BU];
    assert r[BD] == m[BD] && r[BLD] == m[BLD] && r[BL] == m[BL] && r[BLU] == m[BLU];
  }

  /** Each piece `rot_L` writes has the colours of the piece it was taken from. */
  lemma LeftCounts(m: State, c: int)
    requires Shaped(m)
    ensures Count(TurnL(m)[LFD], c) == Count(m[LFU], c)
    ensures Count(TurnL(m)[LFU], c) == Count(m[BLU], c)
    ensures Count(TurnL(m)[BLU], c) == Count(m[BLD], c)
    ensures Count(TurnL(m)[BLD], c) == Count(m[LFD], c)
    ensures Count(TurnL(m)[LD], c) == Count(m[FL], c)
    ensures Count(TurnL(m)[FL], c) == Count(m[LU], c)
    ensures Count(TurnL(m)[LU], c) == Count(m[BL], c)
    ensures Count(TurnL(m)[BL], c) == Count(m[LD], c)
  {
    LeftPieces(m);
    ReorderedCorner(m[LFU], 0, 2, 1, c);
    ReorderedCorner(m[BLU], 1, 2, 0, c);
    ReorderedCorner(m[BLD], 2, 1, 0, c);
    ReorderedCorner(m[LFD], 2, 0, 1, c);
    SwappedEdge(m[FL], c);
    SwappedEdge(m[LU], c);
    SwappedEdge(m[BL], c);
    SwappedEdge(m[LD], c);
  }

  /** `rot_L` keeps the number of facelets of every colour. */
  lemma LeftKeepsTally(m: State, c: int)
    requires Shaped(m)
    ensures Tally(TurnL(m), c) == Tally(m, c)
  {
    LeftCounts(m, c);
    LeftSum(m, TurnL(m), c);
  }

  /** Each piece `rot_Li` writes has the colours of the piece it was taken from. */
  lemma LeftInverseCounts(m: State, c: int)
    requires Shaped(m)
    ensures Count(TurnLi(m)[BLU], c) == Count(m[LFU], c)
    ensures Count(TurnLi(m)[LFU], c) == Count(m[LFD], c)
    ensures Count(TurnLi(m)[LFD], c) == Count(m[BLD], c)
    ensures Count(TurnLi(m)[BLD], c) == Count(m[BLU], c)
    ensures Count(TurnLi(m)[LD], c) == Count(m[BL], c)
    ensures Count(TurnLi(m)[BL], c) == Count(m[LU], c)
    ensures Count(TurnLi(m)[LU], c) == Count(m[FL], c)
    ensures Count(TurnLi(m)[FL], c) == Count(m[LD], c)
  {
    LeftInversePieces(m);
    ReorderedCorner(m[LFU], 2, 0, 1, c);
    ReorderedCorner(m[LFD], 0, 2, 1, c);
    ReorderedCorner(m[BLD], 1, 2, 0, c);
    ReorderedCorner(m[BLU], 2, 1, 0, c);
    SwappedEdge(m[BL], c);
    SwappedEdge(m[LU], c);
    SwappedEdge(m[FL], c);
    SwappedEdge(m[LD], c);
  }

  /** `rot_Li` keeps the number of facelets of every colour. */
  lemma LeftInverseKeepsTally(m: State, c: int)
    requires Shaped(m)
    ensures Tally(TurnLi(m), c) == Tally(m, c)
  {
    LeftInverseCounts(m, c);
    LeftInverseSum(m, TurnLi(m), c);
  }

  /** Each piece `rot_R` writes has the colours of the piece it was taken from. */
  lemma RightCounts(m: State, c: int)
    requires Shaped(m)
    ensures Count(TurnR(m)[RBU], c) == Count(m[FRU], c)
    ensures Count(TurnR(m)[FRU], c) == Count(m[FRD], c)
    ensures Count(TurnR(m)[FRD], c) == Count(m[RBD], c)
    ensures Count(TurnR(m)[RBD], c) == Count(m[RBU], c)
    ensures Count(TurnR(m)[RD], c) == Count(m[BR], c)
    ensures Count(TurnR(m)[BR], c) == Count(m[RU], c)
    ensures Count(TurnR(m)[RU], c) == Count(m[FR], c)
    ensures Count(TurnR(m)[FR], c) == Count(m[RD], c)
  {
    RightPieces(m);
    ReorderedCorner(m[FRU], 1, 2, 0, c);
    ReorderedCorner(m[FRD], 2, 1, 0, c);
    ReorderedCorner(m[RBD], 2, 0, 1, c);
    ReorderedCorner(m[RBU], 0, 2, 1, c);
    SwappedEdge(m[BR], c);
    SwappedEdge(m[RU], c);
    SwappedEdge(m[FR], c);
    SwappedEdge(m[RD], c);
  }

  /** `rot_R` keeps the number of facelets of every colour. */
  lemma RightKeepsTally(m: State, c: int)
    requires Shaped(m)
    ensures Tally(TurnR(m), c) == Tally(m, c)
  {
    RightCounts(m, c);
    RightSum(m, TurnR(m), c);
  }

  /** Each piece `rot_Ri` writes has the colours of the piece it was taken from. */
  lemma RightInverseCounts(m: State, c: int)
    requires Shaped(m)
    ensures Count(TurnRi(m)[FRD], c) == Count(m[FRU], c)
    ensures Count(TurnRi(m)[FRU], c) == Count(m[RBU], c)
    ensures Count(TurnRi(m)[RBU], c) == Count(m[RBD], c)
    ensures Count(TurnRi(m)[RBD], c) == Count(m[FRD], c)
    ensures Count(TurnRi(m)[RD], c) == Count(m[FR], c)
    ensures Count(TurnRi(m)[FR], c) == Count(m[RU], c)
    ensures Count(TurnRi(m)[RU], c) == Count(m[BR], c)
    ensures Count(TurnRi(m)[BR], c) == Count(m[LD], c)
  {
    RightInversePieces(m);
    ReorderedCorner(m[FRU], 2, 1, 0, c);
    ReorderedCorner(m[RBU], 2, 0, 1, c);
    ReorderedCorner(m[RBD], 0, 2, 1, c);
    ReorderedCorner(m[FRD], 1, 2, 0, c);
    SwappedEdge(m[FR], c);
    SwappedEdge(m[RU], c);
    SwappedEdge(m[BR], c);
    SwappedEdge(m[LD], c);
  }

  /** `rot_Ri` as written loses the colours of RD and duplicates those of LD. */
  lemma RightInverseTally(m: State, c: int)
    requires Shaped(m)
    ensures Tally(TurnRi(m), c) == Tally(m, c) - Count(m[RD], c) + Count(m[LD], c)
  {
    RightInverseCounts(m, c);
    RightInverseSum(m, TurnRi(m), c);
  }

  /** The red and orange facelets of RD and LD on the solved cube. */
  lemma SolvedDownEdges()
    ensures Shaped(Initial())
    ensures Count(Initial()[RD], 2) == 1 && Count(Initial()[RD], 4) == 0
    ensures Count(Initial()[LD], 2) == 0 && Count(Initial()[LD], 4) == 1
  {
    InitialShaped();
    var m := Initial();
    assert m[RD] == [2, 0] && m[LD] == [4, 0];
    CountShort(m[RD], 2);
    CountShort(m[LD], 2);
    CountShort(m[RD], 4);
    CountShort(m[LD], 4);
  }

  /** On the solved cube `rot_Ri` leaves one red facelet fewer and one orange
      facelet more. */
  lemma RightInverseChangesColours()
    ensures Shaped(Initial())
    ensures Tally(TurnRi(Initial()), 2) == Tally(Initial(), 2) - 1
    ensures Tally(TurnRi(Initial()), 4) == Tally(Initial(), 4) + 1
  {
    SolvedDownEdges();
    RightInverseTally(Initial(), 2);
    RightInverseTally(Initial(), 4);
  }

  /** Counting rule for `rot_U`: `r` holds at each key the piece the turn takes
      there from `m`. */
  lemma UpSum(m: State, r: State, c: int)
    requires Keyed(m) && Keyed(r)
    requires forall p :: p !in UpRing ==> r[p] == m[p]
    requires r[FRU] == m[RBU] &&
             r[RBU] == m[BLU] &&
             r[BLU] == m[LFU] &&
             r[LFU] == m[FRU] &&
             r[FU] == m[RU] &&
             r[RU] == m[BU] &&
             r[BU] == m[LU] &&
             r[LU] == m[FU]
    ensures Tally(r, c) == Tally(m, c)
  {
    assert r[FR] == m[FR] && r[FRD] == m[FRD] && r[FD] == m[FD] && r[LFD] == m[LFD];
    assert r[FL] == m[FL] && r[LD] == m[LD] && r[BR] == m[BR] && r[RBD] == m[RBD];
    assert r[BD] == m[BD] && r[BLD] == m[BLD] && r[BL] == m[BL] && r[RD] == m[RD];
  }

  /** `rot_U` keeps the number of facelets of every colour. */
  lemma UpKeepsTally(m: State, c: int)
    requires Keyed(m)
    ensures Tally(TurnU(m), c) == Tally(m, c)
  {
    UpSum(m, TurnU(m), c);
  }

  /** Counting rule for `rot_Ui`: `r` holds at each key the piece the turn takes
      there from `m`. */
  lemma UpInverseSum(m: State, r: State, c: int)
    requires Keyed(m) && Keyed(r)
    requires forall p :: p !in UpRing ==> r[p] == m[p]
    requires r[FRU] == m[LFU] &&
             r[RBU] == m[FRU] &&
             r[BLU] == m[RBU] &&
             r[LFU] == m[BLU] &&
             r[FU] == m[LU] &&
             r[RU] == m[FU] &&
             r[BU] == m[RU] &&
             r[LU] == m[BU]
    ensures Tally(r, c) == Tally(m, c)
  {
    assert r[FR] == m[FR] && r[FRD] == m[FRD] && r[FD] == m[FD] && r[LFD] == m[LFD];
    assert r[FL] == m[FL] && r[LD] == m[LD] && r[BR] == m[BR] && r[RBD] == m[RBD];
    assert r[BD] == m[BD] && r[BLD] == m[BLD] && r[BL] == m[BL] && r[RD] == m[RD];
  }

  /** `rot_Ui` keeps the number of facelets of every colour. */
  lemma UpInverseKeepsTally(m: State, c: int)
    requires Keyed(m)
    ensures Tally(TurnUi(m), c) == Tally(m, c)
  {
    UpInverseSum(m, TurnUi(m), c);
  }

  /** Counting rule for `rot_D`: `r` holds at each key the piece the turn takes
      there from `m`. */
  lemma DownSum(m: State, r: State, c: int)
    requires Keyed(m) && Keyed(r)
    requires forall p :: p !in DownRing ==> r[p] == m[p]
    requires r[FRD] == m[LFD] &&
             r[RBD] == m[FRD] &&
             r[BLD] == m[RBD] &&
             r[LFD] == m[BLD] &&
             r[FD] == m[LD] &&
             r[RD] == m[FD] &&
             r[BD] == m[RD] &&
             r[LD] == m[BD]
    ensures Tally(r, c) == Tally(m, c)
  {
    assert r[FU] == m[FU] && r[FRU] == m[FRU] && r[FR] == m[FR] && r[FL] == m[FL];
    assert r[LFU] == m[LFU] && r[LU] == m[LU] && r[BU] == m[BU] && r[RBU] == m[RBU];
    assert r[BR] == m[BR] && r[BL] == m[BL] && r[BLU] == m[BLU] && r[RU] == m[RU];
  }

  /** `rot_D` keeps the number of facelets of every colour. */
  lemma DownKeepsTally(m: State, c: int)
    requires Keyed(m)
    ensures Tally(TurnD(m), c) == Tally(m, c)
  {
    DownSum(m, TurnD(m), c);
  }

  /** Counting rule for `rot_Di`: `r` holds at each key the piece the turn takes
      there from `m`. */
  lemma DownInverseSum(m: State, r: State, c: int)
    requires Keyed(m) && Keyed(r)
    requires forall p :: p !in DownRing ==> r[p] == m[p]
    requires r[FRD] == m[RBD] &&
             r[RBD] == m[BLD] &&
             r[BLD] == m[LFD] &&
             r[LFD] == m[FRD] &&
             r[FD] == m[RD] &&
             r[RD] == m[BD] &&
             r[BD] == m[LD] &&
             r[LD] == m[FD]
    ensures Tally(r, c) == Tally(m, c)
  {
    assert r[FU] == m[FU] && r[FRU] == m[FRU] && r[FR] == m[FR] && r[FL] == m[FL];
    assert r[LFU] == m[LFU] && r[LU] == m[LU] && r[BU] == m[BU] && r[RBU] == m[RBU];
    assert r[BR] == m[BR] && r[BL] == m[BL] && r[BLU] == m[BLU] && r[RU] == m[RU];
  }

  /** `rot_Di` keeps the number of facelets of every colour. */
  lemma DownInverseKeepsTally(m: State, c: int)
    requires Keyed(m)
    ensures Tally(TurnDi(m), c) == Tally(m, c)
  {
    DownInverseSum(m, TurnDi(m), c);
  }

  /** Every turn that completes, except `rot_Ri`, keeps the number of facelets
      of every colour. */
  lemma TurnKeepsTally(mv: Move, m: State, c: int)
    requires Shaped(m) && Completes(mv) && mv != Ri
    ensures Tally(Turn(mv, m), c) == Tally(m, c)
  {
    match mv
    case L => LeftKeepsTally(m, c);
    case Li => LeftInverseKeepsTally(m, c);
    case R => RightKeepsTally(m, c);
    case U => UpKeepsTally(m, c);
    case Ui => UpInverseKeepsTally(m, c);
    case D => DownKeepsTally(m, c);
    case Di => DownInverseKeepsTally(m, c);
    case Bi =>
  }

  /** After `TurnL`, a piece obeys the rule of `edit_cube` when the piece it was
      taken from did. */
  lemma LeftAcceptedAt(m: State, p: Piece)
    requires Shaped(m) && p in LeftRing && Accepted(m[FromL(Sticker(p, 0)).piece])
    ensures Accepted(TurnL(m)[p])
  {
    LeftPieces(m);
    match p
    case LFD => ReorderedCornerAccepted(m[LFU], 0, 2, 1);
    case FL => SwappedEdgeAccepted(m[LU]);
    case LFU => ReorderedCornerAccepted(m[BLU], 1, 2, 0);
    case LU => SwappedEdgeAccepted(m[BL]);
    case LD => SwappedEdgeAccepted(m[FL]);
    case BLD => ReorderedCornerAccepted(m[LFD], 2, 0, 1);
    case BL => SwappedEdgeAccepted(m[LD]);
    case BLU => ReorderedCornerAccepted(m[BLD], 2, 1, 0);
    case _ => assert false;
  }

  /** `rot_L` keeps the rule of `edit_cube` on every piece. */
  lemma LeftKeepsAccepted(m: State)
    requires Shaped(m) && forall p: Piece :: Accepted(m[p])
    ensures forall p: Piece :: Accepted(TurnL(m)[p])
  {
    forall p: Piece ensures Accepted(TurnL(m)[p]) {
      if p in LeftRing {
        assert Real(Sticker(p, 0));
        LeftAcceptedAt(m, p);
      }
    }
  }


  /** After `TurnLi`, a piece obeys the rule of `edit_cube` when the piece it was
      taken from did. */
  lemma LeftInverseAcceptedAt(m: State, p: Piece)
    requires Shaped(m) && p in LeftRing && Accepted(m[FromLi(Sticker(p, 0)).piece])
    ensures Accepted(TurnLi(m)[p])
  {
    LeftInversePieces(m);
    match p
    case LFD => ReorderedCornerAccepted(m[BLD], 1, 2, 0);
    case FL => SwappedEdgeAccepted(m[LD]);
    case LFU => ReorderedCornerAccepted(m[LFD], 0, 2, 1);
    case LU => SwappedEdgeAccepted(m[FL]);
    case LD => SwappedEdgeAccepted(m[BL]);
    case BLD => ReorderedCornerAccepted(m[BLU], 2, 1, 0);
    case BL => SwappedEdgeAccepted(m[LU]);
    case BLU => ReorderedCornerAccepted(m[LFU], 2, 0, 1);
    case _ => assert false;
  }

  /** `rot_Li` keeps the rule of `edit_cube` on every piece. */
  lemma LeftInverseKeepsAccepted(m: State)
    requires Shaped(m) && forall p: Piece :: Accepted(m[p])
    ensures forall p: Piece :: Accepted(TurnLi(m)[p])
  {
    forall p: Piece ensures Accepted(TurnLi(m)[p]) {
      if p in LeftRing {
        assert Real(Sticker(p, 0));
        LeftInverseAcceptedAt(m, p);
      }
    }
  }


  /** After `TurnR`, a piece obeys the rule of `edit_cube` when the piece it was
      taken from did. */
  lemma RightAcceptedAt(m: State, p: Piece)
    requires Shaped(m) && p in RightRing && Accepted(m[FromR(Sticker(p, 0)).piece])
    ensures Accepted(TurnR(m)[p])
  {
    RightPieces(m);
    match p
    case FRU => ReorderedCornerAccepted(m[FRD], 2, 1, 0);
    case FR => SwappedEdgeAccepted(m[RD]);
    case FRD => ReorderedCornerAccepted(m[RBD], 2, 0, 1);
    case RBU => ReorderedCornerAccepted(m[FRU], 1, 2, 0);
    case BR => SwappedEdgeAccepted(m[RU]);
    case RBD => ReorderedCornerAccepted(m[RBU], 0, 2, 1);
    case RU => SwappedEdgeAccepted(m[FR]);
    case RD => SwappedEdgeAccepted(m[BR]);
    case _ => assert false;
  }

  /** `rot_R` keeps the rule of `edit_cube` on every piece. */
  lemma RightKeepsAccepted(m: State)
    requires Shaped(m) && forall p: Piece :: Accepted(m[p])
    ensures forall p: Piece :: Accepted(TurnR(m)[p])
  {
    forall p: Piece ensures Accepted(TurnR(m)[p]) {
      if p in RightRing {
        assert Real(Sticker(p, 0));
        RightAcceptedAt(m, p);
      }
    }
  }


  /** After `TurnRi`, a piece obeys the rule of `edit_cube` when the piece it was
      taken from did. */
  lemma RightInverseAcceptedAt(m: State, p: Piece)
    requires Shaped(m) && p in RightRing && Accepted(m[FromRi(Sticker(p, 0)).piece])
    ensures Accepted(TurnRi(m)[p])
  {
    RightInversePieces(m);
    match p
    case FRU => ReorderedCornerAccepted(m[RBU], 2, 0, 1);
    case FR => SwappedEdgeAccepted(m[RU]);
    case FRD => ReorderedCornerAccepted(m[FRU], 2, 1, 0);
    case RBU => ReorderedCornerAccepted(m[RBD], 0, 2, 1);
    case BR => SwappedEdgeAccepted(m[LD]);
    case RBD => ReorderedCornerAccepted(m[FRD], 1, 2, 0);
    case RU => SwappedEdgeAccepted(m[BR]);
    case RD => SwappedEdgeAccepted(m[FR]);
    case _ => assert false;
  }

  /** `rot_Ri` keeps the rule of `edit_cube` on every piece. */
  lemma RightInverseKeepsAccepted(m: State)
    requires Shaped(m) && forall p: Piece :: Accepted(m[p])
    ensures forall p: Piece :: Accepted(TurnRi(m)[p])
  {
    forall p: Piece ensures Accepted(TurnRi(m)[p]) {
      if p in RightRing {
        assert Real(Sticker(p, 0));
        RightInverseAcceptedAt(m, p);
      }
    }
  }


  /** Up and down turns move whole pieces, so each new piece obeys the rule when
      the old ones do. */
  lemma LayerKeepsAccepted(mv: Move, m: State)
    requires mv in {U, Ui, D, Di} && Shaped(m) && forall p: Piece :: Accepted(m[p])
    ensures forall p: Piece :: Accepted(Turn(mv, m)[p])
  {
    forall p: Piece ensures Accepted(Turn(mv, m)[p]) {
      LayerAt(mv, m, p);
    }
  }

  /** Every turn that completes keeps the rule of `edit_cube` on every piece: each
      new piece is a reordering of an old one. */
  lemma TurnKeepsAccepted(mv: Move, m: State)
    requires Shaped(m) && Completes(mv) && forall p: Piece :: Accepted(m[p])
    ensures forall p: Piece :: Accepted(Turn(mv, m)[p])
  {
    match mv
    case L => LeftKeepsAccepted(m);
    case Li => LeftInverseKeepsAccepted(m);
    case R => RightKeepsAccepted(m);
    case Ri => RightInverseKeepsAccepted(m);
    case U => LayerKeepsAccepted(U, m);
    case Ui => LayerKeepsAccepted(Ui, m);
    case D => LayerKeepsAccepted(D, m);
    case Di => LayerKeepsAccepted(Di, m);
    case Bi =>
  }
}
