/** The twenty pieces of the cube, their identifiers, the solved state and the
    per-piece colour rule of `edit_cube` (Cube.py:4-5, 41-68, 150-192). */
module Pieces {
  import opened Outcomes
  import opened Colours

  /** The corner and edge pieces, one per identifier of `PETITS_CUBES`. */
  datatype Piece =
    | FU | FRU | FR | FRD | FD | LFD | FL | LFU | LU | LD
    | BU | RBU | BR | RBD | BD | BLD | BL | BLU | RU | RD

  /** The identifier string of a piece: the letters of the faces it touches. */
  function Name(p: Piece): string
  {
    match p
    case FU => "FU"   case FRU => "FRU" case FR => "FR"   case FRD => "FRD"
    case FD => "FD"   case LFD => "LFD" case FL => "FL"   case LFU => "LFU"
    case LU => "LU"   case LD => "LD"   case BU => "BU"   case RBU => "RBU"
    case BR => "BR"   case RBD => "RBD" case BD => "BD"   case BLD => "BLD"
    case BL => "BL"   case BLU => "BLU" case RU => "RU"   case RD => "RD"
  }

  /** `PETITS_CUBES`, in the source's order. */
  const PetitsCubes: seq<Piece> :=
    [FU, FRU, FR, FRD, FD, LFD, FL, LFU, LU, LD,
     BU, RBU, BR, RBD, BD, BLD, BL, BLU, RU, RD]

  /** Number of entries of a piece: 3 for a corner, 2 for an edge; one per letter
      of its identifier. */
  function Arity(p: Piece): (n: nat)
    ensures n == |Name(p)|
  {
    match p
    case FRU | FRD | LFD | LFU | RBU | RBD | BLD | BLU => 3
    case _ => 2
  }

  /** The face that entry `i` of piece `p` faces: the face named by the `i`-th
      letter of its identifier. The one table both the turns and the display rely on. */
  function Facing(p: Piece, i: nat): Face
    requires i < Arity(p)
  {
    FaceOfLetter(Name(p)[i]).value
  }

  /** Every piece is listed in `PETITS_CUBES`, has one entry per letter of its
      identifier, and every letter names a face. */
  lemma PetitsCubesComplete(p: Piece)
    ensures p in PetitsCubes
    ensures 2 <= Arity(p) <= 3
    ensures forall i :: 0 <= i < Arity(p) ==> FaceOfLetter(Name(p)[i]).Some?
  {
  }

  /** Looks an identifier string up among `ids`. */
  function Find(name: string, ids: seq<Piece>): Option<Piece>
  {
    if ids == [] then None
    else if Name(ids[0]) == name then Some(ids[0])
    else Find(name, ids[1..])
  }

  /** `Find` answers a piece of `ids` with that identifier, and none exactly when
      no piece of `ids` has it. */
  lemma {:induction false} FindSound(name: string, ids: seq<Piece>)
    ensures Find(name, ids).Some? ==> Find(name, ids).value in ids && Name(Find(name, ids).value) == name
    ensures Find(name, ids).None? <==> forall p :: p in ids ==> Name(p) != name
  {
    if ids != [] && Name(ids[0]) != name {
      FindSound(name, ids[1..]);
      assert forall p :: p in ids ==> p == ids[0] || p in ids[1..];
    }
  }

  /** The piece a dictionary key names, if it is one of `PETITS_CUBES`. */
  function IdOf(name: string): Option<Piece>
  {
    Find(name, PetitsCubes)
  }

  /** Every identifier names exactly one piece and `IdOf` finds it. */
  lemma IdOfName(p: Piece, name: string)
    ensures IdOf(name) == Some(p) <==> Name(p) == name
  {
    PetitsCubesComplete(p);
    FindSound(name, PetitsCubes);
    if Name(p) == name {
      var q := IdOf(name);
      assert q.Some?;
      NameInjective(p, q.value);
    }
  }

  lemma NameInjective(p: Piece, q: Piece)
    requires Name(p) == Name(q)
    ensures p == q
  {
  }

  /** The state of the piece store: the dictionary `self.cubes`. */
  type State = map<Piece, seq<int>>

  /** Every identifier is a key (the keys are never created or destroyed). */
  ghost predicate Keyed(m: State)
  {
    forall p: Piece :: p in m
  }

  /** Every identifier is a key and holds as many entries as its identifier has letters. */
  ghost predicate Shaped(m: State)
  {
    forall p: Piece :: p in m && |m[p]| == Arity(p)
  }

  /** The dictionary built by `Cube.__init__`. */
  function Initial(): (m: State)
    ensures Keyed(m)
  {
    var m := map[
      FU := [1, 5], FRU := [1, 2, 5], RU := [2, 5], RBU := [2, 3, 5],
      BU := [3, 5], BLU := [3, 4, 5], LU := [4, 5], LFU := [4, 1, 5],
      FR := [1, 2], BR := [3, 2], BL := [3, 4], FL := [1, 4],
      FD := [1, 0], FRD := [1, 2, 0], RD := [2, 0], RBD := [2, 3, 0],
      BD := [3, 0], BLD := [3, 4, 0], LD := [4, 0], LFD := [4, 1, 0]
    ];
    EveryKey(m);
    m
  }

  /** A dictionary with the twenty identifiers as keys is keyed. */
  lemma EveryKey(m: State)
    requires FU in m && FRU in m && FR in m && FRD in m && FD in m && LFD in m && FL in m
    requires LFU in m && LU in m && LD in m && BU in m && RBU in m && BR in m && RBD in m
    requires BD in m && BLD in m && BL in m && BLU in m && RU in m && RD in m
    ensures Keyed(m)
  {
    forall p: Piece ensures p in m {
      match p
      case FU => case FRU => case FR => case FRD => case FD => case LFD => case FL =>
      case LFU => case LU => case LD => case BU => case RBU => case BR => case RBD =>
      case BD => case BLD => case BL => case BLU => case RU => case RD =>
    }
  }

  /** A fresh cube holds every piece, with one entry per letter of its identifier. */
  lemma InitialShaped()
    ensures Shaped(Initial())
    ensures Initial()[LD] == [4, 0] && Initial()[BR] == [3, 2]
  {
    forall p: Piece ensures p in Initial() && |Initial()[p]| == Arity(p) {
      if Arity(p) == 3 { InitialCornerAt(p); } else { InitialEdgeAt(p); }
    }
  }

  /** Each corner of a fresh cube has its solved colours. */
  lemma InitialCornerAt(p: Piece)
    requires Arity(p) == 3
    ensures p in Initial() && |Initial()[p]| == Arity(p)
    ensures forall i :: 0 <= i < Arity(p) ==> Initial()[p][i] == FaceCode(Facing(p, i))
  {
    match p
    case FRU =>
    case FRD =>
    case LFD =>
    case LFU =>
    case RBU =>
    case RBD =>
    case BLD =>
    case BLU =>
    case _ => assert false;
  }

  /** Each edge of a fresh cube has its solved colours. */
  lemma InitialEdgeAt(p: Piece)
    requires Arity(p) == 2
    ensures p in Initial() && |Initial()[p]| == Arity(p)
    ensures forall i :: 0 <= i < Arity(p) ==> Initial()[p][i] == FaceCode(Facing(p, i))
  {
    match p
    case FU =>
    case FR =>
    case FD =>
    case FL =>
    case LU =>
    case LD =>
    case BU =>
    case BR =>
    case BD =>
    case BL =>
    case RU =>
    case RD =>
    case _ => assert false;
  }

  /** A fresh cube is solved: entry `i` of every piece is the colour of the face
      named by the `i`-th letter of its identifier. */
  lemma InitialIsSolved()
    ensures Shaped(Initial())
    ensures forall p: Piece, i :: 0 <= i < Arity(p) ==> Initial()[p][i] == FaceCode(Facing(p, i))
  {
    InitialShaped();
    forall p: Piece, i | 0 <= i < Arity(p)
      ensures Initial()[p][i] == FaceCode(Facing(p, i))
    {
      if Arity(p) == 3 { InitialCornerAt(p); } else { InitialEdgeAt(p); }
    }
  }

  /** The rule `edit_cube` enforces on a new piece: every code has a group and no
      group occurs twice, so an accepted piece holds colour codes only. Its length
      is not checked against the piece. */
  predicate Accepted(val: seq<int>)
    ensures Accepted(val) ==> forall i :: 0 <= i < |val| ==> 0 <= val[i] <= 5
  {
    && (forall i :: 0 <= i < |val| ==> Group(val[i]).Some?)
    && (forall i, j :: 0 <= i < j < |val| ==> Group(val[i]) != Group(val[j]))
  }

  /** How many entries of `val` are in group `g` (the counters `groupes[g]`). */
  function GroupCount(val: seq<int>, g: nat): nat
  {
    if val == [] then 0
    else GroupCount(val[..|val| - 1], g) + (if Group(val[|val| - 1]) == Some(g) then 1 else 0)
  }

  /** A group is counted zero times exactly when no entry is in it. */
  lemma {:induction false} GroupCountZero(val: seq<int>, g: nat)
    ensures GroupCount(val, g) == 0 <==> forall i :: 0 <= i < |val| ==> Group(val[i]) != Some(g)
  {
    if val != [] {
      GroupCountZero(val[..|val| - 1], g);
      assert forall i :: 0 <= i < |val| - 1 ==> val[..|val| - 1][i] == val[i];
    }
  }

  /** Counting groups decides the rule: once every code has a group, no group occurs
      twice exactly when every counter is at most one. */
  lemma {:induction false} CountsDecideAccepted(val: seq<int>)
    requires forall i :: 0 <= i < |val| ==> Group(val[i]).Some?
    ensures Accepted(val) ==> forall g: nat :: g < 3 ==> GroupCount(val, g) <= 1
    ensures (forall g: nat :: g < 3 ==> GroupCount(val, g) <= 1) ==> Accepted(val)
  {
    if val != [] {
      var init, last := val[..|val| - 1], val[|val| - 1];
      assert forall i :: 0 <= i < |init| ==> init[i] == val[i];
      CountsDecideAccepted(init);
      var gl := Group(last).value;
      assert gl < 3;
      GroupCountZero(init, gl);
      assert Accepted(val) <==> Accepted(init) && forall i :: 0 <= i < |init| ==> Group(init[i]) != Some(gl);
      assert GroupCount(val, gl) == GroupCount(init, gl) + 1;
      assert forall g: nat :: g != gl ==> GroupCount(val, g) == GroupCount(init, g);
      if Accepted(val) {
        assert GroupCount(init, gl) == 0;
        forall g: nat | g < 3 ensures GroupCount(val, g) <= 1 {
          if g != gl {
            assert GroupCount(init, g) <= 1;
          }
        }
      }
      if forall g: nat :: g < 3 ==> GroupCount(val, g) <= 1 {
        assert GroupCount(val, gl) <= 1;
        forall g: nat | g < 3 ensures GroupCount(init, g) <= 1 {
          assert GroupCount(val, g) <= 1;
        }
        assert Accepted(init);
        assert GroupCount(init, gl) == 0;
        assert forall i :: 0 <= i < |init| ==> Group(init[i]) != Some(gl);
        assert Accepted(val);
      }
    }
  }

  /** An accepted piece has at most three entries, one per group. */
  lemma AcceptedAtMostThree(val: seq<int>)
    ensures Accepted(val) ==> |val| <= 3
  {
    if |val| >= 4 && forall i :: 0 <= i < |val| ==> Group(val[i]).Some? {
      var a, b, c, d := Group(val[0]).value, Group(val[1]).value, Group(val[2]).value, Group(val[3]).value;
      assert a == b || a == c || a == d || b == c || b == d || c == d;
    }
  }

  /** Two opposite colours are refused and a blue-yellow pair is accepted. */
  lemma EditCubeExamples()
    ensures IdOf("FU") == Some(FU)
    ensures !Accepted([0, 5]) && Accepted([1, 5])
  {
    IdOfName(FU, "FU");
    assert Group([0, 5][0]) == Group([0, 5][1]);
  }
}
