/** The border cubes and the slides the engine enumerates, and the filter that
    keeps the cubes a player may take. */
module MoveGeneration {
  import opened QuixoTypes

  /** The border list of the engine, in its order: `(0, i)` for i in 0..4, then
      `(4, i)` for i in 1..4, then `(i, 0)` for i in 0..4, then `(i, 4)` for i in
      1..3. `(0, 0)` is listed twice, at indices 0 and 9. */
  const BorderCubes: seq<Pos> := [
    Pos(0, 0), Pos(0, 1), Pos(0, 2), Pos(0, 3), Pos(0, 4),
    Pos(4, 1), Pos(4, 2), Pos(4, 3), Pos(4, 4),
    Pos(0, 0), Pos(1, 0), Pos(2, 0), Pos(3, 0), Pos(4, 0),
    Pos(1, 4), Pos(2, 4), Pos(3, 4)
  ]

  /** The slides, in the order the engine tries them. */
  const PossibleSlides: seq<Dir> := [Top, Bottom, Left, Right]

  /** The engine tries all four slides. */
  lemma EverySlideIsTried(d: Dir)
    ensures d in PossibleSlides
  {
    match d
    case Top => assert PossibleSlides[0] == d;
    case Bottom => assert PossibleSlides[1] == d;
    case Left => assert PossibleSlides[2] == d;
    case Right => assert PossibleSlides[3] == d;
  }

  predicate OnBorder(c: Pos) {
    c.x == 0 || c.x == 4 || c.y == 0 || c.y == 4
  }

  /** The 17 entries cover exactly the 16 border cells; the only repeated entry
      is `(0, 0)`, at indices 0 and 9. */
  lemma BorderCubesCoverBorder()
    ensures |BorderCubes| == 17
    ensures forall c: Pos :: c in BorderCubes <==> OnBorder(c)
    ensures BorderCubes[0] == BorderCubes[9] == Pos(0, 0)
    ensures forall i, j :: 0 <= i < j < |BorderCubes| && BorderCubes[i] == BorderCubes[j] ==> i == 0 && j == 9
  {
    forall c: Pos | OnBorder(c) ensures c in BorderCubes {
      if c.x == 0 {
        assert c == BorderCubes[c.y];
      } else if c.x == 4 {
        assert c == if c.y == 0 then BorderCubes[13] else BorderCubes[4 + c.y];
      } else if c.y == 0 {
        assert c == BorderCubes[9 + c.x];
      } else {
        assert c == BorderCubes[13 + c.x];
      }
    }
  }

  /** Whether `mover` may take the cube at `c`: its cell is not the opponent's. */
  predicate Takeable(b: Board, mover: Player, c: Pos) {
    Cell(b, c) != Opponent(mover)
  }

  /** The entries of `cubes` that `mover` may take, in the order of `cubes`. */
  function Takeables(b: Board, mover: Player, cubes: seq<Pos>): (ts: seq<Pos>)
    ensures |ts| <= |cubes|
    ensures forall i :: 0 <= i < |ts| ==> Takeable(b, mover, ts[i])
  {
    if cubes == [] then []
    else
      var last := cubes[|cubes| - 1];
      Takeables(b, mover, cubes[..|cubes| - 1]) + (if Takeable(b, mover, last) then [last] else [])
  }

  /** The border cubes that `mover` may take, in border-list order. */
  function PossibleMoves(b: Board, mover: Player): (ms: seq<Pos>)
    ensures |ms| <= |BorderCubes|
    ensures forall i :: 0 <= i < |ms| ==> Cell(b, ms[i]) != Opponent(mover)
  {
    Takeables(b, mover, BorderCubes)
  }

  /** The filter keeps each takeable entry as often as `cubes` lists it and drops
      every other entry. */
  lemma {:induction false} TakeablesCount(b: Board, mover: Player, cubes: seq<Pos>, c: Pos)
    ensures multiset(Takeables(b, mover, cubes))[c] == if Takeable(b, mover, c) then multiset(cubes)[c] else 0
  {
    if cubes != [] {
      var init, last := cubes[..|cubes| - 1], cubes[|cubes| - 1];
      assert cubes == init + [last];
      TakeablesCount(b, mover, init, c);
    }
  }

  /** Membership and length of the filter, for any list of cubes. */
  lemma {:induction false} TakeablesMembers(b: Board, mover: Player, cubes: seq<Pos>)
    ensures |Takeables(b, mover, cubes)| <= |cubes|
    ensures forall c :: c in Takeables(b, mover, cubes) <==> c in cubes && Takeable(b, mover, c)
  {
    if cubes != [] {
      TakeablesMembers(b, mover, cubes[..|cubes| - 1]);
      assert cubes == cubes[..|cubes| - 1] + [cubes[|cubes| - 1]];
    }
  }

  /** `PossibleMoves(b, p)` offers exactly the border cells whose mark is not the
      opponent's: an opponent-held cube is never offered, and every other border
      cube is. */
  lemma PossibleMovesAreTakeableBorderCubes(b: Board, p: Player)
    ensures |PossibleMoves(b, p)| <= 17
    ensures forall c: Pos :: c in PossibleMoves(b, p) <==> OnBorder(c) && Cell(b, c) != Opponent(p)
  {
    BorderCubesCoverBorder();
    TakeablesMembers(b, p, BorderCubes);
  }

  /** When the opponent holds none of the cells of a list of cubes, the filter
      keeps the whole list, in its order. */
  lemma {:induction false} TakeablesKeepsAllWhenNoneHeld(b: Board, p: Player, cubes: seq<Pos>)
    requires forall c :: c in cubes ==> Cell(b, c) != Opponent(p)
    ensures Takeables(b, p, cubes) == cubes
  {
    if cubes != [] {
      TakeablesKeepsAllWhenNoneHeld(b, p, cubes[..|cubes| - 1]);
    }
  }
}
