/** The twelve face turns of Cube.py:194-433 as functions of the piece store.
    Each turn is written as one simultaneous step: the new value of every piece
    in terms of the old store. The class in cube.dfy performs the same turns
    the way the source does and is proved equal to these functions. */
module Turns {
  import opened Outcomes
  import opened Colours
  import opened Pieces

  /** A corner whose entries are taken from `s` in the order `i, j, k`. */
  function Pick3(s: seq<int>, i: nat, j: nat, k: nat): (r: seq<int>)
    requires i < |s| && j < |s| && k < |s|
    ensures |r| == 3 && r[0] == s[i] && r[1] == s[j] && r[2] == s[k]
  {
    [s[i], s[j], s[k]]
  }

  /** An edge with its two entries exchanged. */
  function Swap(s: seq<int>): (r: seq<int>)
    requires |s| >= 2
    ensures |r| == 2 && r[0] == s[1] && r[1] == s[0]
  {
    [s[1], s[0]]
  }

  /** The pieces each turn moves. */
  const LeftRing: set<Piece> := {LFD, LFU, BLU, BLD, LD, FL, LU, BL}
  const RightRing: set<Piece> := {RBU, FRU, FRD, RBD, RD, BR, RU, FR}
  const UpRing: set<Piece> := {FRU, RBU, BLU, LFU, FU, RU, BU, LU}
  const DownRing: set<Piece> := {FRD, RBD, BLD, LFD, FD, RD, BD, LD}

  /** The lengths of the pieces the left turns move. */
  lemma ShapedLeft(m: State)
    requires Shaped(m)
    ensures |m[LFD]| == 3 && |m[LFU]| == 3 && |m[BLU]| == 3 && |m[BLD]| == 3
    ensures |m[LD]| == 2 && |m[FL]| == 2 && |m[LU]| == 2 && |m[BL]| == 2
  {
  }

  /** The lengths of the pieces the right turns move, and of LD, which `rot_Ri` reads. */
  lemma ShapedRight(m: State)
    requires Shaped(m)
    ensures |m[RBU]| == 3 && |m[FRU]| == 3 && |m[FRD]| == 3 && |m[RBD]| == 3
    ensures |m[RD]| == 2 && |m[BR]| == 2 && |m[RU]| == 2 && |m[FR]| == 2 && |m[LD]| == 2
  {
  }

  /** `rot_L` (Cube.py:201-231). */
  function TurnL(m: State): (r: State)
    requires Shaped(m)
    ensures Shaped(r)
    ensures forall p :: p !in LeftRing ==> r[p] == m[p]
  {
    ShapedLeft(m);
    m[LFD := Pick3(m[LFU], 0, 2, 1)]
     [LFU := Pick3(m[BLU], 1, 2, 0)]
     [BLU := Pick3(m[BLD], 2, 1, 0)]
     [BLD := Pick3(m[LFD], 2, 0, 1)]
     [LD := Swap(m[FL])]
     [FL := Swap(m[LU])]
     [LU := Swap(m[BL])]
     [BL := Swap(m[LD])]
  }

  /** `rot_Li` (Cube.py:240-270). */
  function TurnLi(m: State): (r: State)
    requires Shaped(m)
    ensures Shaped(r)
    ensures forall p :: p !in LeftRing ==> r[p] == m[p]
  {
    ShapedLeft(m);
    m[BLU := Pick3(m[LFU], 2, 0, 1)]
     [LFU := Pick3(m[LFD], 0, 2, 1)]
     [LFD := Pick3(m[BLD], 1, 2, 0)]
     [BLD := Pick3(m[BLU], 2, 1, 0)]
     [LD := Swap(m[BL])]
     [BL := Swap(m[LU])]
     [LU := Swap(m[FL])]
     [FL := Swap(m[LD])]
  }

  /** `rot_R` (Cube.py:279-309). */
  function TurnR(m: State): (r: State)
    requires Shaped(m)
    ensures Shaped(r)
    ensures forall p :: p !in RightRing ==> r[p] == m[p]
  {
    ShapedRight(m);
    m[RBU := Pick3(m[FRU], 1, 2, 0)]
     [FRU := Pick3(m[FRD], 2, 1, 0)]
     [FRD := Pick3(m[RBD], 2, 0, 1)]
     [RBD := Pick3(m[RBU], 0, 2, 1)]
     [RD := Swap(m[BR])]
     [BR := Swap(m[RU])]
     [RU := Swap(m[FR])]
     [FR := Swap(m[RD])]
  }

  /** `rot_Ri` as written (Cube.py:318-348): its edge step snapshots `LD`, not `RD`,
      so `BR` receives `LD`'s colours and `RD`'s colours are overwritten. */
  function TurnRi(m: State): (r: State)
    requires Shaped(m)
    ensures Shaped(r)
    ensures forall p :: p !in RightRing ==> r[p] == m[p]
  {
    ShapedRight(m);
    m[FRD := Pick3(m[FRU], 2, 1, 0)]
     [FRU := Pick3(m[RBU], 2, 0, 1)]
     [RBU := Pick3(m[RBD], 0, 2, 1)]
     [RBD := Pick3(m[FRD], 1, 2, 0)]
     [RD := Swap(m[FR])]
     [FR := Swap(m[RU])]
     [RU := Swap(m[BR])]
     [BR := Swap(m[LD])]
  }

  /** `rot_U` (Cube.py:393-397): whole pieces move, none is reordered. */
  function TurnU(m: State): (r: State)
    requires Keyed(m)
    ensures Keyed(r) && (Shaped(m) ==> Shaped(r))
    ensures forall p :: p !in UpRing ==> r[p] == m[p]
  {
    m[FRU := m[RBU]][RBU := m[BLU]][BLU := m[LFU]][LFU := m[FRU]]
     [FU := m[RU]][RU := m[BU]][BU := m[LU]][LU := m[FU]]
  }

  /** `rot_Ui` (Cube.py:405-409). */
  function TurnUi(m: State): (r: State)
    requires Keyed(m)
    ensures Keyed(r) && (Shaped(m) ==> Shaped(r))
    ensures forall p :: p !in UpRing ==> r[p] == m[p]
  {
    m[FRU := m[LFU]][RBU := m[FRU]][BLU := m[RBU]][LFU := m[BLU]]
     [FU := m[LU]][RU := m[FU]][BU := m[RU]][LU := m[BU]]
  }

  /** `rot_D` (Cube.py:417-421). */
  function TurnD(m: State): (r: State)
    requires Keyed(m)
    ensures Keyed(r) && (Shaped(m) ==> Shaped(r))
    ensures forall p :: p !in DownRing ==> r[p] == m[p]
  {
    m[FRD := m[LFD]][RBD := m[FRD]][BLD := m[RBD]][LFD := m[BLD]]
     [FD := m[LD]][RD := m[FD]][BD := m[RD]][LD := m[BD]]
  }

  /** `rot_Di` (Cube.py:429-433). */
  function TurnDi(m: State): (r: State)
    requires Keyed(m)
    ensures Keyed(r) && (Shaped(m) ==> Shaped(r))
    ensures forall p :: p !in DownRing ==> r[p] == m[p]
  {
    m[FRD := m[RBD]][RBD := m[BLD]][BLD := m[LFD]][LFD := m[FRD]]
     [FD := m[RD]][RD := m[BD]][BD := m[LD]][LD := m[FD]]
  }

  /** The moves named by the tokens `L`, `Li`, ... that select `rot_L`, `rot_Li`, ... */
  datatype Move = L | Li | R | Ri | F | Fi | B | Bi | U | Ui | D | Di

  /** The moves whose source method runs to completion. */
  predicate Completes(mv: Move)
  {
    mv !in {F, Fi, B}
  }

  /** The completed moves as functions of the store; `rot_Bi` is an empty stub. */
  function Turn(mv: Move, m: State): (r: State)
    requires Shaped(m) && Completes(mv)
    ensures Shaped(r)
  {
    match mv
    case L => TurnL(m)
    case Li => TurnLi(m)
    case R => TurnR(m)
    case Ri => TurnRi(m)
    case U => TurnU(m)
    case Ui => TurnUi(m)
    case D => TurnD(m)
    case Di => TurnDi(m)
    case Bi => m
  }

  /** Whether `name` is a key of the dictionary: the identifier of a piece the store holds. */
  predicate Present(m: State, name: string)
  {
    exists p :: p in m && Name(p) == name
  }

  /** Evaluating `c.cubes[n]` for the keys `names` from left to right: the first key
      that is not in the dictionary, whose lookup raises `KeyError`. */
  function FirstMissing(m: State, names: seq<string>): (r: Option<string>)
    ensures r.None? <==> forall i :: 0 <= i < |names| ==> Present(m, names[i])
    ensures r.Some? ==> r.value in names && !Present(m, r.value)
    ensures r.Some? ==> exists i :: 0 <= i < |names| && names[i] == r.value && forall j :: 0 <= j < i ==> Present(m, names[j])
  {
    if names == [] then None
    else if !Present(m, names[0]) then Some(names[0])
    else
      var rest := FirstMissing(m, names[1..]);
      assert forall i :: 1 <= i < |names| ==> names[1..][i - 1] == names[i];
      assert rest.Some? ==> exists i :: 0 <= i < |names| && names[i] == rest.value && forall j :: 0 <= j < i ==> Present(m, names[j]) by {
        if rest.Some? {
          var i :| 0 <= i < |names[1..]| && names[1..][i] == rest.value && forall j :: 0 <= j < i ==> Present(m, names[1..][j]);
          assert names[i + 1] == rest.value && forall j :: 0 <= j < i + 1 ==> Present(m, names[j]);
        }
      }
      rest
  }

  /** The right-hand side of the first tuple assignment of `rot_F` (Cube.py:356),
      `rot_Fi` (Cube.py:365) and `rot_B` (Cube.py:375). */
  function RightHandSide(mv: Move): seq<string>
    requires !Completes(mv)
  {
    match mv
    case F => ["FRD", "FLD", "FLU", "FRU"]
    case Fi => ["FRU", "FRD", "FLD", "FLU"]
    case B => ["BRD", "BLD", "BLU", "BRU"]
  }

  /** No identifier of `PETITS_CUBES` begins with `FL` or `BR`, so the keys `FLD`,
      `FLU`, `BRU` and `BRD` name no piece. */
  lemma {:induction false} StrayKey(name: string)
    requires |name| == 3 && name[0] in "FB" && name[1] == if name[0] == 'F' then 'L' else 'R'
    ensures forall m: State :: !Present(m, name)
  {
    forall p: Piece ensures Name(p) != name {
      assert Name(p)[0] != name[0] || Name(p)[1] != name[1] || |Name(p)| == 2;
    }
  }

  /** Evaluating the right-hand side of `rot_F`, `rot_Fi` or `rot_B` raises `KeyError`
      before anything is assigned: on `FLD` for the first two, on `BRD` for the third. */
  lemma {:induction false} RaisesOnRightHandSide(m: State, mv: Move)
    requires Keyed(m) && !Completes(mv)
    ensures FirstMissing(m, RightHandSide(mv)) == Some(if mv == B then "BRD" else "FLD")
  {
    match mv
    case B => BackRaises(m);
    case F => FrontRaises(m);
    case Fi => FrontInverseRaises(m);
  }

  lemma BackRaises(m: State)
    requires Keyed(m)
    ensures FirstMissing(m, ["BRD", "BLD", "BLU", "BRU"]) == Some("BRD")
  {
    StrayKey("BRD");
  }

  lemma FrontRaises(m: State)
    requires Keyed(m)
    ensures FirstMissing(m, ["FRD", "FLD", "FLU", "FRU"]) == Some("FLD")
  {
    PresentKey(m, FRD);
    StrayKey("FLD");
    assert ["FRD", "FLD", "FLU", "FRU"][1..] == ["FLD", "FLU", "FRU"];
  }

  lemma FrontInverseRaises(m: State)
    requires Keyed(m)
    ensures FirstMissing(m, ["FRU", "FRD", "FLD", "FLU"]) == Some("FLD")
  {
    PresentKey(m, FRU);
    PresentKey(m, FRD);
    StrayKey("FLD");
    assert ["FRD", "FLD", "FLU"][1..] == ["FLD", "FLU"];
    assert FirstMissing(m, ["FRD", "FLD", "FLU"]) == Some("FLD");
    assert ["FRU", "FRD", "FLD", "FLU"][1..] == ["FRD", "FLD", "FLU"];
  }

  /** Every identifier is a key of a keyed store. */
  lemma PresentKey(m: State, p: Piece)
    requires Keyed(m)
    ensures Present(m, Name(p))
  {
  }

  /** One call of `rot_<mv>` on the store `m`: the new store, or the `KeyError` it raises. */
  function Step(m: State, mv: Move): (r: Raised<State>)
    requires Shaped(m)
    ensures r.Ok? <==> Completes(mv)
    ensures r.Ok? ==> Shaped(r.value)
    ensures r.KeyError? ==> r.key == if mv == B then "BRD" else "FLD"
  {
    if Completes(mv) then Ok(Turn(mv, m))
    else
      RaisesOnRightHandSide(m, mv);
      match FirstMissing(m, RightHandSide(mv))
      case Some(k) => KeyError(k)
      case None => assert false; Ok(m)
  }

  /** The moves of `moves` played in order from `m`, as the tutorial loop calls them
      (tuto.py:19-23): the final store, and the `KeyError` that stopped the loop, if any.
      The moves before a failing one stay applied. */
  function Run(m: State, moves: seq<Move>): (r: (State, Raised<()>))
    requires Shaped(m)
    ensures Shaped(r.0)
    ensures r.1.Ok? <==> forall i :: 0 <= i < |moves| ==> Completes(moves[i])
    decreases |moves|
  {
    if moves == [] then (m, Ok(()))
    else
      match Step(m, moves[0])
      case KeyError(k) => (m, KeyError(k))
      case Ok(next) =>
        var r := Run(next, moves[1..]);
        assert forall i :: 1 <= i < |moves| ==> moves[1..][i - 1] == moves[i];
        r
  }

  /** The move that the source names as the inverse of `mv`. */
  function Inverse(mv: Move): Move
  {
    match mv
    case L => Li  case Li => L
    case R => Ri  case Ri => R
    case F => Fi  case Fi => F
    case B => Bi  case Bi => B
    case U => Ui  case Ui => U
    case D => Di  case Di => D
  }

  /** The moves that undo `moves`: their inverses in reverse order. */
  function Undo(moves: seq<Move>): (r: seq<Move>)
    ensures |r| == |moves|
    ensures forall i :: 0 <= i < |moves| ==> r[i] == Inverse(moves[|moves| - 1 - i])
  {
    if moves == [] then [] else Undo(moves[1..]) + [Inverse(moves[0])]
  }
}
