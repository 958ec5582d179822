/** Scoring a board from the agent's point of view: a win, a loss, or the
    heuristic count of the agent's marks on its best line. Scores are the
    engine's values multiplied by 5, so that they are integers: a win is 5, a
    loss is -5 and the heuristic is the raw count 0..5 (the engine divides it
    by 5). */
module Evaluation {
  import opened QuixoTypes

  const WinScore := 5
  const LossScore := -5

  /** The number of cells of `s` that hold `p`. */
  function Count(s: seq<int>, p: int): (n: nat)
    ensures n <= |s|
  {
    if s == [] then 0 else (if s[0] == p then 1 else 0) + Count(s[1..], p)
  }

  function Column(b: Board, y: Coord): seq<int> {
    seq(5, x requires 0 <= x < 5 => b[x][y])
  }

  /** The main diagonal: `b[x][x]`. */
  function Diagonal(b: Board): seq<int> {
    seq(5, x requires 0 <= x < 5 => b[x][x])
  }

  /** The anti-diagonal: `b[x][4 - x]`, the engine's `state[x, -(x + 1)]`. */
  function AntiDiagonal(b: Board): seq<int> {
    seq(5, x requires 0 <= x < 5 => b[x][4 - x])
  }

  /** The 12 lines in the order the engine scans them: rows 0..4, columns 0..4,
      the main diagonal, the anti-diagonal. */
  function Line(b: Board, k: nat): (cells: seq<int>)
    requires k < 12
    ensures |cells| == 5
  {
    if k < 5 then b[k]
    else if k < 10 then Column(b, k - 5)
    else if k == 10 then Diagonal(b)
    else AntiDiagonal(b)
  }

  function LineCount(b: Board, p: int, k: nat): nat
    requires k < 12
  {
    Count(Line(b, k), p)
  }

  /** The running maximum the engine keeps after scanning the first `k` lines,
      starting from 0 and replaced only by a strictly larger count. */
  function MaxLineCount(b: Board, p: int, k: nat): (m: nat)
    requires k <= 12
    ensures m <= 5
  {
    if k == 0 then 0
    else
      var m := MaxLineCount(b, p, k - 1);
      var score := LineCount(b, p, k - 1);
      if score > m then score else m
  }

  /** The heuristic: the largest count of `p`'s marks on one line. */
  function Heuristic(b: Board, p: int): (h: nat)
    ensures h <= 5
  {
    MaxLineCount(b, p, 12)
  }

  lemma {:induction false} MaxLineCountIsMax(b: Board, p: int, k: nat)
    requires 1 <= k <= 12
    ensures forall j :: 0 <= j < k ==> LineCount(b, p, j) <= MaxLineCount(b, p, k)
    ensures exists j :: 0 <= j < k && LineCount(b, p, j) == MaxLineCount(b, p, k)
  {
    if k > 1 {
      MaxLineCountIsMax(b, p, k - 1);
      if LineCount(b, p, k - 1) <= MaxLineCount(b, p, k - 1) {
        var j :| 0 <= j < k - 1 && LineCount(b, p, j) == MaxLineCount(b, p, k - 1);
        assert LineCount(b, p, j) == MaxLineCount(b, p, k);
      } else {
        assert LineCount(b, p, k - 1) == MaxLineCount(b, p, k);
      }
    } else {
      assert LineCount(b, p, 0) == MaxLineCount(b, p, 1);
    }
  }

  /** The heuristic is the maximum over the 5 rows, 5 columns and 2 diagonals
      of the number of `p`'s marks, so it lies in 0..5. */
  lemma HeuristicIsLineMax(b: Board, p: int)
    ensures 0 <= Heuristic(b, p) <= 5
    ensures forall k :: 0 <= k < 12 ==> LineCount(b, p, k) <= Heuristic(b, p)
    ensures exists k :: 0 <= k < 12 && LineCount(b, p, k) == Heuristic(b, p)
  {
    MaxLineCountIsMax(b, p, 12);
  }

  lemma {:induction false} CountSeesOnlyMarks(s1: seq<int>, s2: seq<int>, p: int)
    requires |s1| == |s2|
    requires forall i :: 0 <= i < |s1| ==> (s1[i] == p <==> s2[i] == p)
    ensures Count(s1, p) == Count(s2, p)
  {
    if s1 != [] {
      CountSeesOnlyMarks(s1[1..], s2[1..], p);
    }
  }

  lemma {:induction false} MaxLineCountSeesOnlyMarks(b1: Board, b2: Board, p: int, k: nat)
    requires k <= 12
    requires forall i, j :: 0 <= i < 5 && 0 <= j < 5 ==> (b1[i][j] == p <==> b2[i][j] == p)
    ensures MaxLineCount(b1, p, k) == MaxLineCount(b2, p, k)
  {
    if k > 0 {
      MaxLineCountSeesOnlyMarks(b1, b2, p, k - 1);
      CountSeesOnlyMarks(Line(b1, k - 1), Line(b2, k - 1), p);
    }
  }

  /** Only the cells holding `p` matter: two boards on which `p` holds the same
      cells have the same heuristic, whatever the opponent's marks and the empty
      cells are. */
  lemma HeuristicSeesOnlyOwnMarks(b1: Board, b2: Board, p: int)
    requires forall i, j :: 0 <= i < 5 && 0 <= j < 5 ==> (b1[i][j] == p <==> b2[i][j] == p)
    ensures Heuristic(b1, p) == Heuristic(b2, p)
  {
    MaxLineCountSeesOnlyMarks(b1, b2, p, 12);
  }

  /** The value of a board for agent `me`: a win, a loss, or the heuristic when
      the mechanics report no winner among the two players. */
  function StateValue(r: Rules, me: Player, b: Board): (v: int)
    ensures LossScore <= v <= WinScore
    ensures r.winner(b) == me ==> v == WinScore
    ensures v == LossScore <==> r.winner(b) == Opponent(me)
    ensures r.winner(b) != me && r.winner(b) != Opponent(me) ==> v == Heuristic(b, me)
  {
    var res := r.winner(b);
    if res == me then WinScore
    else if res == Opponent(me) then LossScore
    else Heuristic(b, me)
  }
}
