/** Laws of the turns of Cube.py as written: inverse pairs, order four, what the
    defective `rot_Ri` does instead, and what every completed turn preserves. */
module TurnLaws {
  import opened Outcomes
  import opened Colours
  import opened Pieces
  import opened Turns

  /** Two keyed stores with the same piece at every key are equal. */
  lemma {:induction false} SameStore(a: State, b: State)
    requires Keyed(a) && Keyed(b)
    requires forall p: Piece :: a[p] == b[p]
    ensures a == b
  {
    assert a.Keys == b.Keys by {
      forall p: Piece ensures p in a <==> p in b { }
    }
  }

  /** A corner or an edge is determined by its entries. */
  lemma Entries(s: seq<int>)
    requires 2 <= |s| <= 3
    ensures |s| == 3 ==> s == [s[0], s[1], s[2]]
    ensures |s| == 2 ==> s == [s[0], s[1]]
  {
  }

  /** A facelet: entry `slot` of piece `piece`. */
  datatype Sticker = Sticker(piece: Piece, slot: nat)

  predicate Real(s: Sticker)
  {
    s.slot < Arity(s.piece)
  }

  function Entry(m: State, s: Sticker): int
    requires Shaped(m) && Real(s)
  {
    m[s.piece][s.slot]
  }

  /** Two shaped stores that agree on every facelet are equal. */
  lemma {:induction false} SameEntries(a: State, b: State)
    requires Shaped(a) && Shaped(b)
    requires forall s: Sticker :: Real(s) ==> Entry(a, s) == Entry(b, s)
    ensures a == b
  {
    forall p: Piece ensures a[p] == b[p] {
      assert |a[p]| == |b[p]|;
      forall i | 0 <= i < |a[p]| ensures a[p][i] == b[p][i] {
        assert Real(Sticker(p, i));
        assert Entry(a, Sticker(p, i)) == Entry(b, Sticker(p, i));
      }
    }
    SameStore(a, b);
  }

  function Slot3(i: nat, a: nat, b: nat, c: nat): nat
  {
    if i == 0 then a else if i == 1 then b else c
  }

  function Flip(i: nat): nat
  {
    if i == 0 then 1 else 0
  }

  /** The facelet whose colour `rot_L` moves to `s` (Cube.py:201-231), read as a
      permutation of facelets. */
  function FromL(s: Sticker): (t: Sticker)
    requires Real(s)
    ensures Real(t)
  {
    var i := s.slot;
    match s.piece
    case LFD => Sticker(LFU, Slot3(i, 0, 2, 1))
    case LFU => Sticker(BLU, Slot3(i, 1, 2, 0))
    case BLU => Sticker(BLD, Slot3(i, 2, 1, 0))
    case BLD => Sticker(LFD, Slot3(i, 2, 0, 1))
    case LD => Sticker(FL, Flip(i))
    case FL => Sticker(LU, Flip(i))
    case LU => Sticker(BL, Flip(i))
    case BL => Sticker(LD, Flip(i))
    case _ => s
  }

  /** The same for `rot_Li` (Cube.py:240-270). */
  function FromLi(s: Sticker): (t: Sticker)
    requires Real(s)
    ensures Real(t)
  {
    var i := s.slot;
    match s.piece
    case BLU => Sticker(LFU, Slot3(i, 2, 0, 1))
    case LFU => Sticker(LFD, Slot3(i, 0, 2, 1))
    case LFD => Sticker(BLD, Slot3(i, 1, 2, 0))
    case BLD => Sticker(BLU, Slot3(i, 2, 1, 0))
    case LD => Sticker(BL, Flip(i))
    case BL => Sticker(LU, Flip(i))
    case LU => Sticker(FL, Flip(i))
    case FL => Sticker(LD, Flip(i))
    case _ => s
  }

  /** The same for `rot_R` (Cube.py:279-309). */
  function FromR(s: Sticker): (t: Sticker)
    requires Real(s)
    ensures Real(t)
  {
    var i := s.slot;
    match s.piece
    case RBU => Sticker(FRU, Slot3(i, 1, 2, 0))
    case FRU => Sticker(FRD, Slot3(i, 2, 1, 0))
    case FRD => Sticker(RBD, Slot3(i, 2, 0, 1))
    case RBD => Sticker(RBU, Slot3(i, 0, 2, 1))
    case RD => Sticker(BR, Flip(i))
    case BR => Sticker(RU, Flip(i))
    case RU => Sticker(FR, Flip(i))
    case FR => Sticker(RD, Flip(i))
    case _ => s
  }

  /** The same for `rot_Ri` as written (Cube.py:318-348): BR takes LD's facelets. */
  function FromRi(s: Sticker): (t: Sticker)
    requires Real(s)
    ensures Real(t)
  {
    var i := s.slot;
    match s.piece
    case FRD => Sticker(FRU, Slot3(i, 2, 1, 0))
    case FRU => Sticker(RBU, Slot3(i, 2, 0, 1))
    case RBU => Sticker(RBD, Slot3(i, 0, 2, 1))
    case RBD => Sticker(FRD, Slot3(i, 1, 2, 0))
    case RD => Sticker(FR, Flip(i))
    case FR => Sticker(RU, Flip(i))
    case RU => Sticker(BR, Flip(i))
    case BR => Sticker(LD, Flip(i))
    case _ => s
  }

  /** The facelet whose colour a Left or Right turn moves to `s`. */
  function From(mv: Move, s: Sticker): (t: Sticker)
    requires mv in {L, Li, R, Ri} && Real(s)
    ensures Real(t)
  {
    match mv
    case L => FromL(s)
    case Li => FromLi(s)
    case R => FromR(s)
    case Ri => FromRi(s)
  }

  /** The eight pieces `TurnL` rewrites, one by one. */
  lemma LeftPieces(m: State)
    requires Shaped(m)
    ensures TurnL(m)[LFD] == Pick3(m[LFU], 0, 2, 1)
    ensures TurnL(m)[LFU] == Pick3(m[BLU], 1, 2, 0)
    ensures TurnL(m)[BLU] == Pick3(m[BLD], 2, 1, 0)
    ensures TurnL(m)[BLD] == Pick3(m[LFD], 2, 0, 1)
    ensures TurnL(m)[LD] == Swap(m[FL])
    ensures TurnL(m)[FL] == Swap(m[LU])
    ensures TurnL(m)[LU] == Swap(m[BL])
    ensures TurnL(m)[BL] == Swap(m[LD])
  {
  }

  lemma LeftAt(m: State, s: Sticker)
    requires Shaped(m) && Real(s)
    ensures Entry(TurnL(m), s) == Entry(m, FromL(s))
  {
    LeftPieces(m);
    match s.piece
    case FU =>
    case FRU =>
    case FR =>
    case FRD =>
    case FD =>
    case LFD =>
    case FL =>
    case LFU =>
    case LU =>
    case LD =>
    case BU =>
    case RBU =>
    case BR =>
    case RBD =>
    case BD =>
    case BLD =>
    case BL =>
    case BLU =>
    case RU =>
    case RD =>
  }

  /** The eight pieces `TurnLi` rewrites, one by one. */
  lemma LeftInversePieces(m: State)
    requires Shaped(m)
    ensures TurnLi(m)[BLU] == Pick3(m[LFU], 2, 0, 1)
    ensures TurnLi(m)[LFU] == Pick3(m[LFD], 0, 2, 1)
    ensures TurnLi(m)[LFD] == Pick3(m[BLD], 1, 2, 0)
    ensures TurnLi(m)[BLD] == Pick3(m[BLU], 2, 1, 0)
    ensures TurnLi(m)[LD] == Swap(m[BL])
    ensures TurnLi(m)[BL] == Swap(m[LU])
    ensures TurnLi(m)[LU] == Swap(m[FL])
    ensures TurnLi(m)[FL] == Swap(m[LD])
  {
  }

  lemma LeftInverseAt(m: State, s: Sticker)
    requires Shaped(m) && Real(s)
    ensures Entry(TurnLi(m), s) == Entry(m, FromLi(s))
  {
    LeftInversePieces(m);
    match s.piece
    case FU =>
    case FRU =>
    case FR =>
    case FRD =>
    case FD =>
    case LFD =>
    case FL =>
    case LFU =>
    case LU =>
    case LD =>
    case BU =>
    case RBU =>
    case BR =>
    case RBD =>
    case BD =>
    case BLD =>
    case BL =>
    case BLU =>
    case RU =>
    case RD =>
  }

  /** The eight pieces `TurnR` rewrites, one by one. */
  lemma RightPieces(m: State)
    requires Shaped(m)
    ensures TurnR(m)[RBU] == Pick3(m[FRU], 1, 2, 0)
    ensures TurnR(m)[FRU] == Pick3(m[FRD], 2, 1, 0)
    ensures TurnR(m)[FRD] == Pick3(m[RBD], 2, 0, 1)
    ensures TurnR(m)[RBD] == Pick3(m[RBU], 0, 2, 1)
    ensures TurnR(m)[RD] == Swap(m[BR])
    ensures TurnR(m)[BR] == Swap(m[RU])
    ensures TurnR(m)[RU] == Swap(m[FR])
    ensures TurnR(m)[FR] == Swap(m[RD])
  {
  }

  lemma RightAt(m: State, s: Sticker)
    requires Shaped(m) && Real(s)
    ensures Entry(TurnR(m), s) == Entry(m, FromR(s))
  {
    RightPieces(m);
    match s.piece
    case FU =>
    case FRU =>
    case FR =>
    case FRD =>
    case FD =>
    case LFD =>
    case FL =>
    case LFU =>
    case LU =>
    case LD =>
    case BU =>
    case RBU =>
    case BR =>
    case RBD =>
    case BD =>
    case BLD =>
    case BL =>
    case BLU =>
    case RU =>
    case RD =>
  }

  /** The eight pieces `TurnRi` rewrites, one by one. */
  lemma RightInversePieces(m: State)
    requires Shaped(m)
    ensures TurnRi(m)[FRD] == Pick3(m[FRU], 2, 1, 0)
    ensures TurnRi(m)[FRU] == Pick3(m[RBU], 2, 0, 1)
    ensures TurnRi(m)[RBU] == Pick3(m[RBD], 0, 2, 1)
    ensures TurnRi(m)[RBD] == Pick3(m[FRD], 1, 2, 0)
    ensures TurnRi(m)[RD] == Swap(m[FR])
    ensures TurnRi(m)[FR] == Swap(m[RU])
    ensures TurnRi(m)[RU] == Swap(m[BR])
    ensures TurnRi(m)[BR] == Swap(m[LD])
  {
  }

  lemma RightInverseAt(m: State, s: Sticker)
    requires Shaped(m) && Real(s)
    ensures Entry(TurnRi(m), s) == Entry(m, FromRi(s))
  {
    RightInversePieces(m);
    match s.piece
    case FU =>
    case FRU =>
    case FR =>
    case FRD =>
    case FD =>
    case LFD =>
    case FL =>
    case LFU =>
    case LU =>
    case LD =>
    case BU =>
    case RBU =>
    case BR =>
    case RBD =>
    case BD =>
    case BLD =>
    case BL =>
    case BLU =>
    case RU =>
    case RD =>
  }

  /** Each Left or Right turn gives every facelet the colour of the facelet `From` names. */
  lemma TurnAt(mv: Move, m: State, s: Sticker)
    requires mv in {L, Li, R, Ri} && Shaped(m) && Real(s)
    ensures Entry(Turn(mv, m), s) == Entry(m, From(mv, s))
  {
    match mv
    case L => LeftAt(m, s);
    case Li => LeftInverseAt(m, s);
    case R => RightAt(m, s);
    case Ri => RightInverseAt(m, s);
  }

  /** Left and Left-inverse are inverse permutations of the facelets. */
  lemma LeftFromInverse(s: Sticker)
    requires Real(s)
    ensures FromLi(FromL(s)) == s && FromL(FromLi(s)) == s
  {
    match s.piece
    case FU =>
    case FRU =>
    case FR =>
    case FRD =>
    case FD =>
    case LFD =>
    case FL =>
    case LFU =>
    case LU =>
    case LD =>
    case BU =>
    case RBU =>
    case BR =>
    case RBD =>
    case BD =>
    case BLD =>
    case BL =>
    case BLU =>
    case RU =>
    case RD =>
  }

  /** Right followed by Right-inverse fixes every facelet except those of BR, and
      Right-inverse followed by Right every facelet except those of RD. */
  lemma RightFromPair(s: Sticker)
    requires Real(s)
    ensures FromR(FromRi(s)) == if s.piece == BR then Sticker(LD, Flip(s.slot)) else s
    ensures FromRi(FromR(s)) == if s.piece == RD then Sticker(LD, s.slot) else s
  {
    match s.piece
    case FU =>
    case FRU =>
    case FR =>
    case FRD =>
    case FD =>
    case LFD =>
    case FL =>
    case LFU =>
    case LU =>
    case LD =>
    case BU =>
    case RBU =>
    case BR =>
    case RBD =>
    case BD =>
    case BLD =>
    case BL =>
    case BLU =>
    case RU =>
    case RD =>
  }

  lemma LeftFromOrderFour(s: Sticker)
    requires Real(s)
    ensures FromL(FromL(FromL(FromL(s)))) == s
  {
    match s.piece
    case FU =>
    case FRU =>
    case FR =>
    case FRD =>
    case FD =>
    case LFD =>
    case FL =>
    case LFU =>
    case LU =>
    case LD =>
    case BU =>
    case RBU =>
    case BR =>
    case RBD =>
    case BD =>
    case BLD =>
    case BL =>
    case BLU =>
    case RU =>
    case RD =>
  }

  lemma LeftInverseFromOrderFour(s: Sticker)
    requires Real(s)
    ensures FromLi(FromLi(FromLi(FromLi(s)))) == s
  {
    match s.piece
    case FU =>
    case FRU =>
    case FR =>
    case FRD =>
    case FD =>
    case LFD =>
    case FL =>
    case LFU =>
    case LU =>
    case LD =>
    case BU =>
    case RBU =>
    case BR =>
    case RBD =>
    case BD =>
    case BLD =>
    case BL =>
    case BLU =>
    case RU =>
    case RD =>
  }

  lemma RightFromOrderFour(s: Sticker)
    requires Real(s)
    ensures FromR(FromR(FromR(FromR(s)))) == s
  {
    match s.piece
    case FU =>
    case FRU =>
      if s.slot == 0 { } else if s.slot == 1 { } else { }
    case FR =>
    case FRD =>
      if s.slot == 0 { } else if s.slot == 1 { } else { }
    case FD =>
    case LFD =>
    case FL =>
    case LFU =>
    case LU =>
    case LD =>
    case BU =>
    case RBU =>
      if s.slot == 0 { } else if s.slot == 1 { } else { }
    case BR =>
    case RBD =>
      if s.slot == 0 { } else if s.slot == 1 { } else { }
    case BD =>
    case BLD =>
    case BL =>
    case BLU =>
    case RU =>
    case RD =>
  }

  /** The Left, Left-inverse and Right permutations have order four. */
  lemma FromOrderFour(mv: Move, s: Sticker)
    requires mv in {L, Li, R} && Real(s)
    ensures From(mv, From(mv, From(mv, From(mv, s)))) == s
  {
    match mv
    case L => LeftFromOrderFour(s);
    case Li => LeftInverseFromOrderFour(s);
    case R => RightFromOrderFour(s);
  }

  /** Two turns in a row compose their facelet permutations. */
  lemma {:induction false} TurnTwice(a: Move, b: Move, m: State, s: Sticker)
    requires a in {L, Li, R, Ri} && b in {L, Li, R, Ri} && Shaped(m) && Real(s)
    ensures Entry(Turn(b, Turn(a, m)), s) == Entry(m, From(a, From(b, s)))
  {
    TurnAt(b, Turn(a, m), s);
    TurnAt(a, m, From(b, s));
  }

  /** `rot_Li` undoes `rot_L` and `rot_L` undoes `rot_Li`. */
  lemma {:induction false} LeftInverse(m: State)
    requires Shaped(m)
    ensures TurnLi(TurnL(m)) == m && TurnL(TurnLi(m)) == m
  {
    forall s: Sticker | Real(s)
      ensures Entry(Turn(Li, Turn(L, m)), s) == Entry(m, s)
      ensures Entry(Turn(L, Turn(Li, m)), s) == Entry(m, s)
    {
      TurnTwice(L, Li, m, s);
      TurnTwice(Li, L, m, s);
      LeftFromInverse(s);
    }
    SameEntries(Turn(Li, Turn(L, m)), m);
    SameEntries(Turn(L, Turn(Li, m)), m);
  }

  /** Four quarter turns of the left or right face, as written, give back the cube. */
  lemma {:induction false} SideOrderFour(mv: Move, m: State)
    requires mv in {L, Li, R} && Shaped(m)
    ensures Turn(mv, Turn(mv, Turn(mv, Turn(mv, m)))) == m
  {
    var m2 := Turn(mv, Turn(mv, m));
    forall s: Sticker | Real(s)
      ensures Entry(Turn(mv, Turn(mv, m2)), s) == Entry(m, s)
    {
      TurnTwice(mv, mv, m2, s);
      TurnTwice(mv, mv, m, From(mv, From(mv, s)));
      FromOrderFour(mv, s);
    }
    SameEntries(Turn(mv, Turn(mv, m2)), m);
  }

  /** `rot_Ri` after `rot_R` restores everything except BR, which receives the
      colours of LD, flipped. */
  lemma {:induction false} RightThenInverse(m: State)
    requires Shaped(m)
    ensures TurnRi(TurnR(m)) == m[BR := Swap(m[LD])]
  {
    var want := m[BR := Swap(m[LD])];
    ShapedUpdate(m, BR, Swap(m[LD]));
    var back := TurnRi(TurnR(m));
    forall s: Sticker | Real(s)
      ensures Entry(back, s) == Entry(want, s)
    {
      RightInverseAt(TurnR(m), s);
      RightAt(m, FromRi(s));
      RightFromPair(s);
    }
    SameEntries(back, want);
  }

  /** `rot_R` after `rot_Ri` restores everything except RD, which receives the
      colours of LD. */
  lemma {:induction false} InverseThenRight(m: State)
    requires Shaped(m)
    ensures TurnR(TurnRi(m)) == m[RD := m[LD]]
  {
    var want := m[RD := m[LD]];
    ShapedUpdate(m, RD, m[LD]);
    var back := TurnR(TurnRi(m));
    forall s: Sticker | Real(s)
      ensures Entry(back, s) == Entry(want, s)
    {
      RightAt(TurnRi(m), s);
      RightInverseAt(m, FromR(s));
      RightFromPair(s);
    }
    SameEntries(back, want);
  }

  /** Writing a piece of the right length keeps the store shaped. */
  lemma ShapedUpdate(m: State, p: Piece, v: seq<int>)
    requires Shaped(m) && |v| == Arity(p)
    ensures Shaped(m[p := v])
  {
  }

  /** The corner half of the Right inverse law holds: every corner is restored. */
  lemma RightCornersRestored(m: State, p: Piece)
    requires Shaped(m) && Arity(p) == 3
    ensures TurnRi(TurnR(m))[p] == m[p] && TurnR(TurnRi(m))[p] == m[p]
  {
    RightThenInverse(m);
    InverseThenRight(m);
  }

  /** The edge half fails: on any cube whose LD and BR hold their solved colours,
      as in the cube `Cube.__init__` builds (Cube.py:55, 66), R then Ri leaves BR
      holding LD's colours, and Ri then R leaves RD holding them. */
  lemma RightInverseBreaksSolved(m: State)
    requires Shaped(m) && m[LD] == [4, 0] && m[BR] == [3, 2]
    ensures TurnRi(TurnR(m)) != m
    ensures TurnRi(TurnR(m))[BR] == [0, 4]
    ensures TurnR(TurnRi(m))[RD] == [4, 0]
  {
    RightThenInverse(m);
    InverseThenRight(m);
    assert Swap(m[LD]) == [0, 4];
    assert TurnRi(TurnR(m))[BR] != m[BR];
  }

  /** The piece whose entries an up or down turn moves to key `p`: those turns move
      whole pieces, unchanged, around a ring of four corners and four edges. */
  function Source(mv: Move, p: Piece): Piece
    requires mv in {U, Ui, D, Di}
  {
    match mv
    case U =>
      (match p
       case FRU => RBU case RBU => BLU case BLU => LFU case LFU => FRU
       case FU => RU case RU => BU case BU => LU case LU => FU
       case _ => p)
    case Ui =>
      (match p
       case FRU => LFU case RBU => FRU case BLU => RBU case LFU => BLU
       case FU => LU case RU => FU case BU => RU case LU => BU
       case _ => p)
    case D =>
      (match p
       case FRD => LFD case RBD => FRD case BLD => RBD case LFD => BLD
       case FD => LD case RD => FD case BD => RD case LD => BD
       case _ => p)
    case Di =>
      (match p
       case FRD => RBD case RBD => BLD case BLD => LFD case LFD => FRD
       case FD => RD case RD => BD case BD => LD case LD => FD
       case _ => p)
  }

  lemma UpAt(m: State, p: Piece)
    requires Keyed(m)
    ensures TurnU(m)[p] == m[Source(U, p)]
  {
    match p
    case FU =>
    case FRU =>
    case FR =>
    case FRD =>
    case FD =>
    case LFD =>
    case FL =>
    case LFU =>
    case LU =>
    case LD =>
    case BU =>
    case RBU =>
    case BR =>
    case RBD =>
    case BD =>
    case BLD =>
    case BL =>
    case BLU =>
    case RU =>
    case RD =>
  }

  lemma UpInverseAt(m: State, p: Piece)
    requires Keyed(m)
    ensures TurnUi(m)[p] == m[Source(Ui, p)]
  {
    match p
    case FU =>
    case FRU =>
    case FR =>
    case FRD =>
    case FD =>
    case LFD =>
    case FL =>
    case LFU =>
    case LU =>
    case LD =>
    case BU =>
    case RBU =>
    case BR =>
    case RBD =>
    case BD =>
    case BLD =>
    case BL =>
    case BLU =>
    case RU =>
    case RD =>
  }

  lemma DownAt(m: State, p: Piece)
    requires Keyed(m)
    ensures TurnD(m)[p] == m[Source(D, p)]
  {
    match p
    case FU =>
    case FRU =>
    case FR =>
    case FRD =>
    case FD =>
    case LFD =>
    case FL =>
    case LFU =>
    case LU =>
    case LD =>
    case BU =>
    case RBU =>
    case BR =>
    case RBD =>
    case BD =>
    case BLD =>
    case BL =>
    case BLU =>
    case RU =>
    case RD =>
  }

  lemma DownInverseAt(m: State, p: Piece)
    requires Keyed(m)
    ensures TurnDi(m)[p] == m[Source(Di, p)]
  {
    match p
    case FU =>
    case FRU =>
    case FR =>
    case FRD =>
    case FD =>
    case LFD =>
    case FL =>
    case LFU =>
    case LU =>
    case LD =>
    case BU =>
    case RBU =>
    case BR =>
    case RBD =>
    case BD =>
    case BLD =>
    case BL =>
    case BLU =>
    case RU =>
    case RD =>
  }

  /** Each up or down turn puts at every key the piece `Source` names. */
  lemma LayerAt(mv: Move, m: State, p: Piece)
    requires mv in {U, Ui, D, Di} && Shaped(m)
    ensures Turn(mv, m)[p] == m[Source(mv, p)]
  {
    match mv
    case U => UpAt(m, p);
    case Ui => UpInverseAt(m, p);
    case D => DownAt(m, p);
    case Di => DownInverseAt(m, p);
  }

  lemma UpSourceLaws(p: Piece)
    ensures Source(U, Source(Ui, p)) == p
    ensures Source(U, Source(U, Source(U, Source(U, p)))) == p
  {
    match p
    case FU =>
    case FRU =>
    case FR =>
    case FRD =>
    case FD =>
    case LFD =>
    case FL =>
    case LFU =>
    case LU =>
    case LD =>
    case BU =>
    case RBU =>
    case BR =>
    case RBD =>
    case BD =>
    case BLD =>
    case BL =>
    case BLU =>
    case RU =>
    case RD =>
  }

  lemma UpInverseSourceLaws(p: Piece)
    ensures Source(Ui, Source(U, p)) == p
    ensures Source(Ui, Source(Ui, Source(Ui, Source(Ui, p)))) == p
  {
    match p
    case FU =>
    case FRU =>
    case FR =>
    case FRD =>
    case FD =>
    case LFD =>
    case FL =>
    case LFU =>
    case LU =>
    case LD =>
    case BU =>
    case RBU =>
    case BR =>
    case RBD =>
    case BD =>
    case BLD =>
    case BL =>
    case BLU =>
    case RU =>
    case RD =>
  }

  lemma DownSourceLaws(p: Piece)
    ensures Source(D, Source(Di, p)) == p
    ensures Source(D, Source(D, Source(D, Source(D, p)))) == p
  {
    match p
    case FU =>
    case FRU =>
    case FR =>
    case FRD =>
    case FD =>
    case LFD =>
    case FL =>
    case LFU =>
    case LU =>
    case LD =>
    case BU =>
    case RBU =>
    case BR =>
    case RBD =>
    case BD =>
    case BLD =>
    case BL =>
    case BLU =>
    case RU =>
    case RD =>
  }

  lemma DownInverseSourceLaws(p: Piece)
    ensures Source(Di, Source(D, p)) == p
    ensures Source(Di, Source(Di, Source(Di, Source(Di, p)))) == p
  {
    match p
    case FU =>
    case FRU =>
    case FR =>
    case FRD =>
    case FD =>
    case LFD =>
    case FL =>
    case LFU =>
    case LU =>
    case LD =>
    case BU =>
    case RBU =>
    case BR =>
    case RBD =>
    case BD =>
    case BLD =>
    case BL =>
    case BLU =>
    case RU =>
    case RD =>
  }

  /** Up and down turns and their inverses are inverse permutations of the keys,
      and each has order four. */
  lemma SourceLaws(mv: Move, p: Piece)
    requires mv in {U, Ui, D, Di}
    ensures Inverse(mv) in {U, Ui, D, Di}
    ensures Source(mv, Source(Inverse(mv), p)) == p
    ensures Source(mv, Source(mv, Source(mv, Source(mv, p)))) == p
  {
    match mv
    case U => UpSourceLaws(p);
    case Ui => UpInverseSourceLaws(p);
    case D => DownSourceLaws(p);
    case Di => DownInverseSourceLaws(p);
  }

  /** `rot_Ui` undoes `rot_U`, `rot_Di` undoes `rot_D`, and back. */
  lemma {:induction false} LayerInverse(mv: Move, m: State)
    requires mv in {U, Ui, D, Di} && Shaped(m)
    ensures Inverse(mv) in {U, Ui, D, Di}
    ensures Turn(Inverse(mv), Turn(mv, m)) == m
  {
    SourceLaws(mv, Piece.FU);
    var r := Turn(Inverse(mv), Turn(mv, m));
    forall p: Piece ensures r[p] == m[p] {
      LayerAt(Inverse(mv), Turn(mv, m), p);
      LayerAt(mv, m, Source(Inverse(mv), p));
      SourceLaws(mv, p);
    }
    SameStore(r, m);
  }

  /** Four quarter turns of the up or down face give back the cube. */
  lemma {:induction false} LayerOrderFour(mv: Move, m: State)
    requires mv in {U, Ui, D, Di} && Shaped(m)
    ensures Turn(mv, Turn(mv, Turn(mv, Turn(mv, m)))) == m
  {
    var m1 := Turn(mv, m);
    var m2 := Turn(mv, m1);
    var m3 := Turn(mv, m2);
    forall p: Piece ensures Turn(mv, m3)[p] == m[p] {
      LayerAt(mv, m3, p);
      LayerAt(mv, m2, Source(mv, p));
      LayerAt(mv, m1, Source(mv, Source(mv, p)));
      LayerAt(mv, m, Source(mv, Source(mv, Source(mv, p))));
      SourceLaws(mv, p);
    }
    SameStore(Turn(mv, m3), m);
  }

  /** The inverse laws that hold as written: `rot_Li`, `rot_Ui` and `rot_Di` undo
      `rot_L`, `rot_U` and `rot_D`, and the other way round. */
  lemma InverseLaw(mv: Move, m: State)
    requires mv in {L, Li, U, Ui, D, Di} && Shaped(m)
    ensures Completes(Inverse(mv)) && Turn(Inverse(mv), Turn(mv, m)) == m
  {
    if mv in {L, Li} {
      LeftInverse(m);
    } else {
      LayerInverse(mv, m);
    }
  }

  /** Four applications of any turn that completes, except `rot_Ri`, give back the cube. */
  lemma OrderFour(mv: Move, m: State)
    requires Completes(mv) && mv != Ri && Shaped(m)
    ensures Turn(mv, Turn(mv, Turn(mv, Turn(mv, m)))) == m
  {
    if mv in {L, Li, R} {
      SideOrderFour(mv, m);
    } else if mv != Bi {
      LayerOrderFour(mv, m);
    }
  }

  /** Playing `a + b` is playing `a`, then `b` from where `a` left the cube. */
  lemma {:induction false} RunAppend(m: State, a: seq<Move>, b: seq<Move>)
    requires Shaped(m)
    ensures Run(m, a).1.Ok? ==> Run(m, a + b) == Run(Run(m, a).0, b)
    decreases |a|
  {
    if a != [] && Run(m, a).1.Ok? {
      assert Completes(a[0]);
      assert (a + b)[0] == a[0] && (a + b)[1..] == a[1..] + b;
      var next := Turn(a[0], m);
      assert Run(m, a) == Run(next, a[1..]);
      assert Run(m, a + b) == Run(next, a[1..] + b);
      RunAppend(next, a[1..], b);
    } else if a == [] {
      assert a + b == b;
    }
  }

  /** `moves + Undo(moves)` nests: the first move, the rest and its undo, then the
      first move's inverse. */
  lemma UndoNests(moves: seq<Move>)
    requires moves != []
    ensures moves + Undo(moves) == [moves[0]] + ((moves[1..] + Undo(moves[1..])) + [Inverse(moves[0])])
  {
    assert Undo(moves) == Undo(moves[1..]) + [Inverse(moves[0])];
    assert moves == [moves[0]] + moves[1..];
  }

  /** Playing a move that completes, then `rest`. */
  lemma RunFirst(m: State, x: Move, rest: seq<Move>)
    requires Shaped(m) && Completes(x)
    ensures Run(m, [x] + rest) == Run(Turn(x, m), rest)
  {
    assert ([x] + rest)[0] == x && ([x] + rest)[1..] == rest;
  }

  /** A sequence of left, up and down turns followed by its `Undo` gives back the cube. */
  lemma {:induction false} UndoRestores(m: State, moves: seq<Move>)
    requires Shaped(m)
    requires forall i :: 0 <= i < |moves| ==> moves[i] in {L, Li, U, Ui, D, Di}
    ensures Run(m, moves + Undo(moves)) == (m, Ok(()))
    decreases |moves|
  {
    if moves == [] {
      assert moves + Undo(moves) == [];
    } else {
      var x := moves[0];
      var rest := moves[1..];
      var next := Turn(x, m);
      InverseLaw(x, m);
      assert forall i :: 0 <= i < |rest| ==> rest[i] == moves[i + 1];
      UndoRestores(next, rest);
      UndoNests(moves);
      RunFirst(m, x, (rest + Undo(rest)) + [Inverse(x)]);
      RunAppend(next, rest + Undo(rest), [Inverse(x)]);
      RunFirst(next, Inverse(x), []);
      assert [Inverse(x)] + [] == [Inverse(x)];
    }
  }
}
