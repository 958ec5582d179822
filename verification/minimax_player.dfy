/** The agent itself: the player object whose methods run the loops of the
    engine, each proved to compute the corresponding specification function. */
module MinimaxAgent {
  import opened QuixoTypes
  import opened MoveGeneration
  import opened Evaluation
  import opened Search

  class MinimaxPlayer {
    /** The depth of the search. */
    const maxDepth: nat
    /** The agent's identity, set at each `MakeMove`; `None` before the first. */
    var playerId: Option<Player>

    /** A new player searches `maxDepth` plies deep, 3 unless given. */
    constructor (maxDepth: nat := 3)
      ensures this.maxDepth == maxDepth && playerId == None
    {
      this.maxDepth := maxDepth;
      playerId := None;
    }

    /** Takes the identity of the player to move, then searches from the root
        with bounds -inf and +inf on a maximising ply and returns its move,
        which is a legal move of the agent from a cube it may take. */
    method MakeMove(game: Game) returns (best: Option<Move>)
      modifies this`playerId
      ensures playerId == Some(game.current)
      ensures best == Search.Minimax(game.rules, game.current, game.board, maxDepth, NegInf, PosInf, true).1
      ensures best.Some? ==> best.value.pos in PossibleMoves(game.board, game.current)
                             && game.rules.move(game.board, best.value.pos, best.value.dir, game.current).Some?
    {
      playerId := Some(game.current);
      var _, bestMove := Minimax(game, maxDepth, NegInf, PosInf, true);
      BestMoveIsLegal(game.rules, game.current, game.board, maxDepth, NegInf, PosInf, true);
      best := bestMove;
    }

    /** The search of one node: the board value at depth 0 or once the game
        has a winner, otherwise the loops of the ply whose turn it is. */
    method Minimax(game: Game, depth: nat, alpha0: int, beta0: int, maximizingPlayer: bool)
      returns (value: int, bestMove: Option<Move>)
      requires playerId.Some?
      ensures (value, bestMove) == Search.Minimax(game.rules, playerId.value, game.board, depth, alpha0, beta0, maximizingPlayer)
      decreases depth, 1
    {
      if depth == 0 || game.rules.winner(game.board) >= 0 {
        value := StateValue(game.rules, game.board);
        return value, None;
      }
      if maximizingPlayer {
        value, bestMove := MaximizingPly(game, depth, alpha0, beta0);
      } else {
        value, bestMove := MinimizingPly(game, depth, alpha0, beta0);
      }
    }

    /** The agent's ply: for each cube the agent may take and each slide, the
        move is tried on a copy of the game; a legal one is searched one level
        deeper by the opponent. The best value and move change only on a
        strict improvement, a value at or above beta ends the slides of the
        current cube, and alpha is raised to the child's value. */
    method MaximizingPly(game: Game, depth: nat, alpha0: int, beta0: int)
      returns (maxEval: int, bestMove: Option<Move>)
      requires playerId.Some? && depth > 0
      ensures var n := Explore(game.rules, playerId.value, game.board, depth, alpha0, beta0, true);
        maxEval == n.best && bestMove == n.move
      decreases depth, 0
    {
      var me := playerId.value;
      var rules := game.rules;
      var alpha, beta := alpha0, beta0;
      ghost var explored: seq<Trial> := [];
      var positions := GetPossibleMoves(game, me);
      maxEval := NegInf;
      bestMove := None;
      var cubes := positions;
      while cubes != []
        invariant InRange(maxEval)
        invariant ExplorePositions(rules, me, game.board, depth, true, Node(maxEval, bestMove, alpha, beta, explored), cubes)
                  == Explore(rules, me, game.board, depth, alpha0, beta0, true)
      {
        var fromPos := cubes[0];
        ghost var atPos := Node(maxEval, bestMove, alpha, beta, explored);
        var slides := PossibleSlides;
        while slides != []
          invariant InRange(maxEval)
          invariant ExploreSlides(rules, me, game.board, depth, true, Node(maxEval, bestMove, alpha, beta, explored), fromPos, slides)
                    == ExploreSlides(rules, me, game.board, depth, true, atPos, fromPos, PossibleSlides)
        {
          var move := slides[0];
          ghost var before := Node(maxEval, bestMove, alpha, beta, explored);
          var newBoard := rules.move(game.board, fromPos, move, me);
          if newBoard.Some? {
            var eval, _ := Minimax(game.(board := newBoard.value), depth - 1, alpha, beta, false);
            if eval > maxEval {
              maxEval := eval;
              bestMove := Some(Move(fromPos, move));
            }
            explored := explored + [Trial(Move(fromPos, move), alpha, beta, eval)];
            if maxEval >= beta {
              assert Node(maxEval, bestMove, alpha, beta, explored) == ExploreSlides(rules, me, game.board, depth, true, before, fromPos, slides);
              break;
            }
            alpha := Max(alpha, eval);
          }
          slides := slides[1..];
        }
        cubes := cubes[1..];
      }
    }

    /** The opponent's ply: the same loops with the opponent's cubes and
        slides, a search one level deeper by the agent, a strict decrease of the
        best value, a cutoff at or below alpha, and beta lowered to the running
        minimum. */
    method MinimizingPly(game: Game, depth: nat, alpha0: int, beta0: int)
      returns (minEval: int, bestMove: Option<Move>)
      requires playerId.Some? && depth > 0
      ensures var n := Explore(game.rules, playerId.value, game.board, depth, alpha0, beta0, false);
        minEval == n.best && bestMove == n.move
      decreases depth, 0
    {
      var me := playerId.value;
      var rules := game.rules;
      var alpha, beta := alpha0, beta0;
      ghost var explored: seq<Trial> := [];
      var positions := GetPossibleMoves(game, Opponent(me));
      minEval := PosInf;
      bestMove := None;
      var cubes := positions;
      while cubes != []
        invariant InRange(minEval)
        invariant ExplorePositions(rules, me, game.board, depth, false, Node(minEval, bestMove, alpha, beta, explored), cubes)
                  == Explore(rules, me, game.board, depth, alpha0, beta0, false)
      {
        var fromPos := cubes[0];
        ghost var atPos := Node(minEval, bestMove, alpha, beta, explored);
        var slides := PossibleSlides;
        while slides != []
          invariant InRange(minEval)
          invariant ExploreSlides(rules, me, game.board, depth, false, Node(minEval, bestMove, alpha, beta, explored), fromPos, slides)
                    == ExploreSlides(rules, me, game.board, depth, false, atPos, fromPos, PossibleSlides)
        {
          var move := slides[0];
          ghost var before := Node(minEval, bestMove, alpha, beta, explored);
          var newBoard := rules.move(game.board, fromPos, move, Opponent(me));
          if newBoard.Some? {
            var eval, _ := Minimax(game.(board := newBoard.value), depth - 1, alpha, beta, true);
            if eval < minEval {
              minEval := eval;
              bestMove := Some(Move(fromPos, move));
            }
            explored := explored + [Trial(Move(fromPos, move), alpha, beta, eval)];
            if minEval <= alpha {
              assert Node(minEval, bestMove, alpha, beta, explored) == ExploreSlides(rules, me, game.board, depth, false, before, fromPos, slides);
              break;
            }
            beta := Min(beta, minEval);
          }
          slides := slides[1..];
        }
        cubes := cubes[1..];
      }
    }

    /** A win, a loss, or the heuristic, for the agent. */
    method StateValue(rules: Rules, state: Board) returns (v: int)
      requires playerId.Some?
      ensures v == Evaluation.StateValue(rules, playerId.value, state)
    {
      var res := rules.winner(state);
      if res == playerId.value {
        return WinScore;
      }
      if res == 1 - playerId.value {
        return LossScore;
      }
      v := CheckBoard(state);
    }

    /** The largest number of the agent's marks on one row, column or diagonal,
        scanned as the engine does: rows, then columns, then the two diagonals. */
    method CheckBoard(state: Board) returns (maxScore: nat)
      requires playerId.Some?
      ensures maxScore == Heuristic(state, playerId.value)
    {
      var p := playerId.value;
      maxScore := 0;
      for x := 0 to 5
        invariant maxScore == MaxLineCount(state, p, x)
      {
        var score := Count(state[x], p);
        if score > maxScore {
          maxScore := score;
        }
      }
      for y := 0 to 5
        invariant maxScore == MaxLineCount(state, p, 5 + y)
      {
        var score := Count(Column(state, y), p);
        if score > maxScore {
          maxScore := score;
        }
      }
      var score := Count(Diagonal(state), p);
      if score > maxScore {
        maxScore := score;
      }
      assert maxScore == MaxLineCount(state, p, 11);
      score := Count(AntiDiagonal(state), p);
      if score > maxScore {
        maxScore := score;
      }
      assert maxScore == MaxLineCount(state, p, 12);
    }

    /** The border cubes whose cell the opponent of `currentPlayer` does not hold,
        in border-list order. */
    method GetPossibleMoves(game: Game, currentPlayer: Player) returns (moves: seq<Pos>)
      ensures moves == PossibleMoves(game.board, currentPlayer)
    {
      moves := [];
      for i := 0 to |BorderCubes|
        invariant moves == Takeables(game.board, currentPlayer, BorderCubes[..i])
      {
        var cube := BorderCubes[i];
        assert BorderCubes[..i + 1][..i] == BorderCubes[..i];
        if game.board[cube.y][cube.x] != 1 - currentPlayer {
          moves := moves + [cube];
        }
      }
      assert BorderCubes[..|BorderCubes|] == BorderCubes;
    }
  }
}
