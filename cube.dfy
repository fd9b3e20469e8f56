/** The `Cube` object of Cube.py: a dictionary of pieces that its methods change
    in place, step by step, as the source does. Each method is proved to leave
    the store the pure function of turns.dfy or pieces.dfy describes. */
module CubeObject {
  import opened Outcomes
  import opened Colours
  import opened Pieces
  import opened Turns

  /** `c.cubes[dst][0..2] = src[i], src[j], src[k]`: the three entry writes the
      turns perform on one corner, in the source's order. */
  method WriteCorner(cs: State, dst: Piece, src: seq<int>, i: nat, j: nat, k: nat) returns (r: State)
    requires dst in cs && |cs[dst]| == 3 && |src| == 3 && i < 3 && j < 3 && k < 3
    ensures r == cs[dst := Pick3(src, i, j, k)]
  {
    r := cs;
    r := r[dst := r[dst][0 := src[i]]];
    r := r[dst := r[dst][1 := src[j]]];
    r := r[dst := r[dst][2 := src[k]]];
    assert r[dst] == [src[i], src[j], src[k]];
  }

  /** `c.cubes[dst][0], c.cubes[dst][1] = src[1], src[0]`: the two entry writes the
      turns perform on one edge. */
  method WriteEdge(cs: State, dst: Piece, src: seq<int>) returns (r: State)
    requires dst in cs && |cs[dst]| == 2 && |src| == 2
    ensures r == cs[dst := Swap(src)]
  {
    r := cs;
    r := r[dst := r[dst][0 := src[1]]];
    r := r[dst := r[dst][1 := src[0]]];
    assert r[dst] == [src[1], src[0]];
  }

  /** The corner block of `rot_L` (Cube.py:201-215): a copy of LFD, then LFD, LFU,
      BLU and BLD rewritten entry by entry. */
  method LeftCorners(m: State) returns (r: State)
    requires LFD in m && LFU in m && BLU in m && BLD in m
    requires |m[LFD]| == 3 && |m[LFU]| == 3 && |m[BLU]| == 3 && |m[BLD]| == 3
    ensures r == m[LFD := Pick3(m[LFU], 0, 2, 1)][LFU := Pick3(m[BLU], 1, 2, 0)]
                  [BLU := Pick3(m[BLD], 2, 1, 0)][BLD := Pick3(m[LFD], 2, 0, 1)]
  {
    r := m;
    var temp := r[LFD];
    r := WriteCorner(r, LFD, r[LFU], 0, 2, 1);
    r := WriteCorner(r, LFU, r[BLU], 1, 2, 0);
    r := WriteCorner(r, BLU, r[BLD], 2, 1, 0);
    r := WriteCorner(r, BLD, temp, 2, 0, 1);
  }

  /** The edge block of `rot_L` (Cube.py:217-231): a copy of LD, then LD, FL, LU and
      BL rewritten with their entries exchanged. */
  method LeftEdges(m: State) returns (r: State)
    requires LD in m && FL in m && LU in m && BL in m
    requires |m[LD]| == 2 && |m[FL]| == 2 && |m[LU]| == 2 && |m[BL]| == 2
    ensures r == m[LD := Swap(m[FL])][FL := Swap(m[LU])][LU := Swap(m[BL])][BL := Swap(m[LD])]
  {
    r := m;
    var temp := r[LD];
    r := WriteEdge(r, LD, r[FL]);
    r := WriteEdge(r, FL, r[LU]);
    r := WriteEdge(r, LU, r[BL]);
    r := WriteEdge(r, BL, temp);
  }

  /** The corner block of `rot_Li` (Cube.py:240-256). */
  method LeftInverseCorners(m: State) returns (r: State)
    requires BLU in m && LFU in m && LFD in m && BLD in m
    requires |m[BLU]| == 3 && |m[LFU]| == 3 && |m[LFD]| == 3 && |m[BLD]| == 3
    ensures r == m[BLU := Pick3(m[LFU], 2, 0, 1)][LFU := Pick3(m[LFD], 0, 2, 1)]
                  [LFD := Pick3(m[BLD], 1, 2, 0)][BLD := Pick3(m[BLU], 2, 1, 0)]
  {
    r := m;
    var temp := r[BLU];
    r := WriteCorner(r, BLU, r[LFU], 2, 0, 1);
    r := WriteCorner(r, LFU, r[LFD], 0, 2, 1);
    r := WriteCorner(r, LFD, r[BLD], 1, 2, 0);
    r := WriteCorner(r, BLD, temp, 2, 1, 0);
  }

  /** The edge block of `rot_Li` (Cube.py:258-270). */
  method LeftInverseEdges(m: State) returns (r: State)
    requires LD in m && BL in m && LU in m && FL in m
    requires |m[LD]| == 2 && |m[BL]| == 2 && |m[LU]| == 2 && |m[FL]| == 2
    ensures r == m[LD := Swap(m[BL])][BL := Swap(m[LU])][LU := Swap(m[FL])][FL := Swap(m[LD])]
  {
    r := m;
    var temp := r[LD];
    r := WriteEdge(r, LD, r[BL]);
    r := WriteEdge(r, BL, r[LU]);
    r := WriteEdge(r, LU, r[FL]);
    r := WriteEdge(r, FL, temp);
  }

  /** The corner block of `rot_R` (Cube.py:279-295). */
  method RightCorners(m: State) returns (r: State)
    requires RBU in m && FRU in m && FRD in m && RBD in m
    requires |m[RBU]| == 3 && |m[FRU]| == 3 && |m[FRD]| == 3 && |m[RBD]| == 3
    ensures r == m[RBU := Pick3(m[FRU], 1, 2, 0)][FRU := Pick3(m[FRD], 2, 1, 0)]
                  [FRD := Pick3(m[RBD], 2, 0, 1)][RBD := Pick3(m[RBU], 0, 2, 1)]
  {
    r := m;
    var temp := r[RBU];
    r := WriteCorner(r, RBU, r[FRU], 1, 2, 0);
    r := WriteCorner(r, FRU, r[FRD], 2, 1, 0);
    r := WriteCorner(r, FRD, r[RBD], 2, 0, 1);
    r := WriteCorner(r, RBD, temp, 0, 2, 1);
  }

  /** The edge block of `rot_R` (Cube.py:297-309). */
  method RightEdges(m: State) returns (r: State)
    requires RD in m && BR in m && RU in m && FR in m
    requires |m[RD]| == 2 && |m[BR]| == 2 && |m[RU]| == 2 && |m[FR]| == 2
    ensures r == m[RD := Swap(m[BR])][BR := Swap(m[RU])][RU := Swap(m[FR])][FR := Swap(m[RD])]
  {
    r := m;
    var temp := r[RD];
    r := WriteEdge(r, RD, r[BR]);
    r := WriteEdge(r, BR, r[RU]);
    r := WriteEdge(r, RU, r[FR]);
    r := WriteEdge(r, FR, temp);
  }

  /** The corner block of `rot_Ri` (Cube.py:318-334). */
  method RightInverseCorners(m: State) returns (r: State)
    requires FRD in m && FRU in m && RBU in m && RBD in m
    requires |m[FRD]| == 3 && |m[FRU]| == 3 && |m[RBU]| == 3 && |m[RBD]| == 3
    ensures r == m[FRD := Pick3(m[FRU], 2, 1, 0)][FRU := Pick3(m[RBU], 2, 0, 1)]
                  [RBU := Pick3(m[RBD], 0, 2, 1)][RBD := Pick3(m[FRD], 1, 2, 0)]
  {
    r := m;
    var temp := r[FRD];
    r := WriteCorner(r, FRD, r[FRU], 2, 1, 0);
    r := WriteCorner(r, FRU, r[RBU], 2, 0, 1);
    r := WriteCorner(r, RBU, r[RBD], 0, 2, 1);
    r := WriteCorner(r, RBD, temp, 1, 2, 0);
  }

  /** The edge block of `rot_Ri` as written (Cube.py:336-348): the copy is of LD,
      not of RD, the first edge it overwrites, so BR receives LD's colours. */
  method RightInverseEdges(m: State) returns (r: State)
    requires LD in m && RD in m && FR in m && RU in m && BR in m
    requires |m[LD]| == 2 && |m[RD]| == 2 && |m[FR]| == 2 && |m[RU]| == 2 && |m[BR]| == 2
    ensures r == m[RD := Swap(m[FR])][FR := Swap(m[RU])][RU := Swap(m[BR])][BR := Swap(m[LD])]
  {
    r := m;
    var temp := r[LD];
    r := WriteEdge(r, RD, r[FR]);
    r := WriteEdge(r, FR, r[RU]);
    r := WriteEdge(r, RU, r[BR]);
    r := WriteEdge(r, BR, temp);
  }

  /** One more entry adds one to the count of its group. */
  lemma GroupCountStep(val: seq<int>, k: nat, g: nat)
    requires k < |val|
    ensures GroupCount(val[..k + 1], g) == GroupCount(val[..k], g) + if Group(val[k]) == Some(g) then 1 else 0
  {
    assert val[..k + 1][..k] == val[..k];
  }

  /** A code without a group makes the piece unacceptable. */
  lemma UngroupedRefused(val: seq<int>, k: nat)
    requires k < |val| && Group(val[k]).None?
    ensures !Accepted(val)
  {
  }

  class Cube {
    /** `self.cubes`: identifier to colour codes. */
    var cubes: State

    /** The twenty identifiers stay keys for the life of the object. */
    ghost predicate Valid()
      reads this
    {
      Keyed(cubes)
    }

    /** `Cube.__init__` (Cube.py:37-68): every piece in its solved place. */
    constructor ()
      ensures Valid() && Shaped(cubes)
      ensures cubes == Initial()
    {
      cubes := Initial();
      InitialShaped();
    }

    /** `edit_cube` (Cube.py:150-192): counts the groups of `val` in a loop and
        writes the piece only if the identifier is known, every code has a group
        and no group occurs twice. */
    method EditCube(name: string, val: seq<int>) returns (ok: bool)
      requires Valid()
      modifies this
      ensures Valid()
      ensures ok <==> IdOf(name).Some? && Accepted(val)
      ensures ok ==> cubes == old(cubes)[IdOf(name).value := val]
      ensures !ok ==> cubes == old(cubes)
    {
      var id := IdOf(name);
      if id.None? {
        return false;
      }
      var groupes := [0, 0, 0];
      var k := 0;
      while k < |val|
        invariant 0 <= k <= |val|
        invariant cubes == old(cubes)
        invariant |groupes| == 3
        invariant forall i :: 0 <= i < k ==> Group(val[i]).Some?
        invariant forall g: nat :: g < 3 ==> groupes[g] == GroupCount(val[..k], g)
      {
        var i := Group(val[k]);
        if i.None? {
          UngroupedRefused(val, k);
          return false;
        }
        forall g: nat | g < 3 {
          GroupCountStep(val, k, g);
        }
        groupes := groupes[i.value := groupes[i.value] + 1];
        k := k + 1;
      }
      assert val[..k] == val;
      CountsDecideAccepted(val);
      var erreur := groupes[0] > 1 || groupes[1] > 1 || groupes[2] > 1;
      if !erreur {
        cubes := cubes[id.value := val];
        return true;
      } else {
        return false;
      }
    }

    /** `rot_L` (Cube.py:194-231): a copy of LFD, then the corner entries and,
        after a copy of LD, the edge entries overwritten one at a time. */
    method RotL()
      requires Shaped(cubes)
      modifies this
      ensures cubes == TurnL(old(cubes))
    {
      var cs := LeftCorners(cubes);
      cs := LeftEdges(cs);
      cubes := cs;
    }

    /** `rot_Li` (Cube.py:233-270): a copy of BLU, then the corner entries and,
        after a copy of LD, the edge entries overwritten one at a time. */
    method RotLi()
      requires Shaped(cubes)
      modifies this
      ensures cubes == TurnLi(old(cubes))
    {
      var cs := LeftInverseCorners(cubes);
      cs := LeftInverseEdges(cs);
      cubes := cs;
    }

    /** `rot_R` (Cube.py:272-309): a copy of RBU, then the corner entries and,
        after a copy of RD, the edge entries overwritten one at a time. */
    method RotR()
      requires Shaped(cubes)
      modifies this
      ensures cubes == TurnR(old(cubes))
    {
      var cs := RightCorners(cubes);
      cs := RightEdges(cs);
      cubes := cs;
    }

    /** `rot_Ri` as written (Cube.py:311-348): a copy of FRD for the corners, but a
        copy of LD, not RD, for the edges, so BR receives LD's colours. */
    method RotRi()
      requires Shaped(cubes)
      modifies this
      ensures cubes == TurnRi(old(cubes))
    {
      var cs := RightInverseCorners(cubes);
      cs := RightInverseEdges(cs);
      cubes := cs;
    }

    /** Evaluates `c.cubes[n]` for the keys `names` from left to right and answers
        the first one that is not a key, as the lookup raising `KeyError` does. */
    method FirstMissingKey(names: seq<string>) returns (r: Option<string>)
      ensures r == FirstMissing(cubes, names)
    {
      var k := 0;
      while k < |names|
        invariant 0 <= k <= |names|
        invariant FirstMissing(cubes, names) == FirstMissing(cubes, names[k..])
      {
        assert names[k..][1..] == names[k + 1..];
        if !Present(cubes, names[k]) {
          return Some(names[k]);
        }
        k := k + 1;
      }
      return None;
    }

    /** `rot_F` (Cube.py:350-357): the right-hand side of its first assignment
        names `FLD`, which is not a key, so it raises and changes nothing. */
    method RotF() returns (r: Raised<()>)
      requires Valid()
      ensures r == KeyError("FLD")
    {
      r := Raise(F);
    }

    /** `rot_Fi` (Cube.py:359-366): raises on `FLD` too and changes nothing. */
    method RotFi() returns (r: Raised<()>)
      requires Valid()
      ensures r == KeyError("FLD")
    {
      r := Raise(Fi);
    }

    /** `rot_B` (Cube.py:368-376): raises on `BRD` and changes nothing. */
    method RotB() returns (r: Raised<()>)
      requires Valid()
      ensures r == KeyError("BRD")
    {
      r := Raise(B);
    }

    /** The failing first assignment shared by `rot_F`, `rot_Fi` and `rot_B`. */
    method Raise(mv: Move) returns (r: Raised<()>)
      requires Valid() && !Completes(mv)
      ensures r == KeyError(if mv == B then "BRD" else "FLD")
    {
      var missing := FirstMissingKey(RightHandSide(mv));
      RaisesOnRightHandSide(cubes, mv);
      r := KeyError(missing.value);
    }

    /** `rot_Bi` (Cube.py:378-385): an empty stub. */
    method RotBi()
      ensures cubes == old(cubes)
    {
    }

    /** `rot_U` (Cube.py:387-397): four keys reassigned at once, twice. */
    method RotU()
      requires Valid()
      modifies this
      ensures cubes == TurnU(old(cubes))
    {
      cubes := cubes[FRU := cubes[RBU]][RBU := cubes[BLU]][BLU := cubes[LFU]][LFU := cubes[FRU]];
      cubes := cubes[FU := cubes[RU]][RU := cubes[BU]][BU := cubes[LU]][LU := cubes[FU]];
    }

    /** `rot_Ui` (Cube.py:399-409). */
    method RotUi()
      requires Valid()
      modifies this
      ensures cubes == TurnUi(old(cubes))
    {
      cubes := cubes[FRU := cubes[LFU]][RBU := cubes[FRU]][BLU := cubes[RBU]][LFU := cubes[BLU]];
      cubes := cubes[FU := cubes[LU]][RU := cubes[FU]][BU := cubes[RU]][LU := cubes[BU]];
    }

    /** `rot_D` (Cube.py:411-421). */
    method RotD()
      requires Valid()
      modifies this
      ensures cubes == TurnD(old(cubes))
    {
      cubes := cubes[FRD := cubes[LFD]][RBD := cubes[FRD]][BLD := cubes[RBD]][LFD := cubes[BLD]];
      cubes := cubes[FD := cubes[LD]][RD := cubes[FD]][BD := cubes[RD]][LD := cubes[BD]];
    }

    /** `rot_Di` (Cube.py:423-433). */
    method RotDi()
      requires Valid()
      modifies this
      ensures cubes == TurnDi(old(cubes))
    {
      cubes := cubes[FRD := cubes[RBD]][RBD := cubes[BLD]][BLD := cubes[LFD]][LFD := cubes[FRD]];
      cubes := cubes[FD := cubes[RD]][RD := cubes[BD]][BD := cubes[LD]][LD := cubes[FD]];
    }

    /** Calls the method `rot_<mv>`, as `getattr(c, 'rot_' + token)()` does
        (tuto.py:19-23): the `KeyError` it raises, if any, and otherwise the turned store. */
    method Apply(mv: Move) returns (r: Raised<()>)
      requires Shaped(cubes)
      modifies this
      ensures Step(old(cubes), mv).Ok? ==> r == Ok(()) && cubes == Step(old(cubes), mv).value
      ensures Step(old(cubes), mv).KeyError? ==> r == KeyError(Step(old(cubes), mv).key) && cubes == old(cubes)
    {
      match mv
      case L => RotL(); r := Ok(());
      case Li => RotLi(); r := Ok(());
      case R => RotR(); r := Ok(());
      case Ri => RotRi(); r := Ok(());
      case F => r := RotF();
      case Fi => r := RotFi();
      case B => r := RotB();
      case Bi => RotBi(); r := Ok(());
      case U => RotU(); r := Ok(());
      case Ui => RotUi(); r := Ok(());
      case D => RotD(); r := Ok(());
      case Di => RotDi(); r := Ok(());
    }

    /** The tutorial loop (tuto.py:19-23): the moves called in order, stopping at
        the first `KeyError`; the moves before it stay applied. */
    method Play(moves: seq<Move>) returns (r: Raised<()>)
      requires Shaped(cubes)
      modifies this
      ensures (cubes, r) == Run(old(cubes), moves)
    {
      var k := 0;
      while k < |moves|
        invariant 0 <= k <= |moves|
        invariant Shaped(cubes)
        invariant Run(old(cubes), moves) == Run(cubes, moves[k..])
      {
        assert moves[k..][0] == moves[k] && moves[k..][1..] == moves[k + 1..];
        r := Apply(moves[k]);
        if r.KeyError? {
          return;
        }
        k := k + 1;
      }
      return Ok(());
    }
  }
}
