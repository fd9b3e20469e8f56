/** Colour codes, the faces they belong to, and the three opposition groups
    (Cube.py:17-31 and the docstring of `edit_cube`, Cube.py:156-161). */
module Colours {
  import opened Outcomes

  /** The six faces of the cube, named by the letters used in piece identifiers. */
  datatype Face = Front | Right | Back | Left | Up | Down

  /** The face named by a letter of a piece identifier. */
  function FaceOfLetter(ch: char): Option<Face>
  {
    match ch
    case 'F' => Some(Front)
    case 'R' => Some(Right)
    case 'B' => Some(Back)
    case 'L' => Some(Left)
    case 'U' => Some(Up)
    case 'D' => Some(Down)
    case _ => None
  }

  /** The colour code of a face's centre: Down White 0, Front Blue 1, Right Red 2,
      Back Green 3, Left Orange 4, Up Yellow 5. */
  function FaceCode(f: Face): (code: int)
    ensures 0 <= code <= 5
  {
    match f
    case Down => 0
    case Front => 1
    case Right => 2
    case Back => 3
    case Left => 4
    case Up => 5
  }

  /** The face across the cube from `f`. */
  function Opposite(f: Face): Face
  {
    match f
    case Front => Back
    case Back => Front
    case Right => Left
    case Left => Right
    case Up => Down
    case Down => Up
  }

  /** `codeToGroup`: group 0 is White and Yellow, group 1 Orange and Red, group 2
      Blue and Green; any other code has no group. */
  function Group(code: int): (g: Option<nat>)
    ensures g.Some? <==> 0 <= code <= 5
    ensures g.Some? ==> g.value < 3
  {
    if code == 0 || code == 5 then Some(0)
    else if code == 4 || code == 2 then Some(1)
    else if code == 1 || code == 3 then Some(2)
    else None
  }

  /** The letters of the facelet string: W B R G O Y for the codes 0 to 5. */
  const Alphabet: string := "WBRGOY"

  function Letter(code: int): (ch: char)
    requires 0 <= code <= 5
  {
    Alphabet[code]
  }

  /** The code of a letter of the facelet string, if it is one of W B R G O Y. */
  function CodeOf(ch: char): (r: Option<int>)
    ensures r.Some? ==> 0 <= r.value <= 5 && Letter(r.value) == ch
  {
    match ch
    case 'W' => Some(0)
    case 'B' => Some(1)
    case 'R' => Some(2)
    case 'G' => Some(3)
    case 'O' => Some(4)
    case 'Y' => Some(5)
    case _ => None
  }

  lemma LetterRoundTrip(code: int)
    requires 0 <= code <= 5
    ensures CodeOf(Letter(code)) == Some(code)
  {
  }

  /** Two faces' colours share a group exactly when the faces are the same or opposite:
      the groups are the pairs of opposite faces. */
  lemma GroupIsOpposition(f: Face, g: Face)
    ensures Group(FaceCode(f)).Some?
    ensures Group(FaceCode(f)) == Group(FaceCode(g)) <==> f == g || g == Opposite(f)
  {
  }

  /** How many entries of `s` are the colour code `c`. */
  function Count(s: seq<int>, c: int): nat
  {
    if s == [] then 0 else Count(s[..|s| - 1], c) + (if s[|s| - 1] == c then 1 else 0)
  }

  /** `Count` is the multiplicity of `c` in the multiset of entries. */
  lemma {:induction false} CountIsMultiplicity(s: seq<int>, c: int)
    ensures Count(s, c) == multiset(s)[c]
  {
    if s != [] {
      CountIsMultiplicity(s[..|s| - 1], c);
      assert s == s[..|s| - 1] + [s[|s| - 1]];
    }
  }
}
