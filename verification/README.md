# Quixo minimax agent

A model of the `MinimaxPlayer` decision engine of a Quixo player. Quixo is played on a 5x5 board.
On each turn a player takes a cube from the border (an empty one or their own), marks it, and
slides it back into its row or column. The engine chooses a move by depth-limited minimax with
its own variant of alpha-beta pruning. The model covers four parts:

- **Move generation** (`move_generation.dfy`). The fixed list of 17 border entries is modelled, in
  which `(0, 0)` appears twice. So is the filter that keeps, in list order, the entries whose cell
  `board[y][x]` is not held by the mover's opponent.
- **Evaluation** (`evaluation.dfy`). The heuristic is the largest count of the agent's marks on one
  of the 5 rows, 5 columns, the main diagonal or the anti-diagonal. The board value is a win, a
  loss, or that heuristic.
- **Search** (`search.dfy`). Minimax is written as recursive functions. A node loops over the
  mover's takeable cubes and, for each cube, over the four slides. The best value and best move
  change only on a strict improvement. A cutoff ends the slide loop of the current cube and
  nothing else. Alpha is raised from each child's value on maximising plies. Beta is lowered from
  the running minimum on minimising plies. Each node's loop state keeps a trace of the trials it
  made, so the lemmas can talk about what was explored.
- **The agent** (`minimax_player.dfy`). A class with the agent's mutable `playerId`. Its methods
  run the engine's loops (`MakeMove`, `Minimax`, `StateValue`, `CheckBoard`, `GetPossibleMoves`),
  and each one is proved to compute the matching specification function. The two branches of the
  engine's `minimax`, the maximising ply and the minimising ply, are the methods `MaximizingPly`
  and `MinimizingPly`, which `Minimax` calls once the terminal test fails.

Each board cell holds -1 (empty) or a player identity, 0 or 1.

Scores are the engine's values times 5, so they are integers. A win is 5, a loss is -5, and the
heuristic is the raw count 0..5. The engine's `-inf` and `+inf` become -6 and 6. Every score lies
strictly between those two, so each comparison, `max` and `min` gives the same result as with the
floats. That includes comparisons between infinities, which occur when a child has no legal move.

The board mechanics come from a game module that is not part of this model: the slide of a cube
and the winner test. They enter as the `Rules` value, made of two total functions: `move(board,
pos, dir, player)` returns the new board or `None` when the move is illegal, and `winner(board)`
returns a player identity or a negative number. The engine copies a game before trying a move on
it. The model keeps games as immutable values, so a trial can never change its parent node.

Three behaviours of the code that are easy to miss:
- The border list has 17 entries, not 16 distinct ones: `(0, 0)` is tried twice.
- The heuristic can reach 5 (the engine's 1.0), not just values below it.
- A node returns no move exactly when its value is still the starting infinity. That holds when
  no move was legal. It also holds when every legal child returned that same infinity, because
  ties never replace the best move. This cannot happen in a depth-1 root search
  (bounds -inf and +inf, maximising), where `DepthOneMovesWhenItCan` shows that no move is
  returned exactly when no move is legal.

## Model

| member | source | states |
|---|---|---|
| MoveGeneration.BorderCubesCoverBorder | quixo/main.py:22 | the list has 17 entries covering exactly the cells with a coordinate 0 or 4; its only repeated entry is `(0, 0)`, at indices 0 and 9 |
| MoveGeneration.EverySlideIsTried | quixo/main.py:24 | every one of the four slides is in the list the engine tries |
| MoveGeneration.Takeables | quixo/main.py:140-147 | the filter is never longer than its input and keeps only entries the mover may take; `TakeablesMembers` and `TakeablesCount` state which entries are kept and how often |
| MoveGeneration.PossibleMoves | quixo/main.py:138-147 | at most 17 cubes are offered, and none of them is held by the opponent; `PossibleMovesAreTakeableBorderCubes` states that every other border cube is offered |
| MoveGeneration.TakeablesCount | quixo/main.py:138-147 | the filter keeps each entry whose cell is not the opponent's as many times as the input lists it, and drops every other entry |
| MoveGeneration.TakeablesMembers | quixo/main.py:138-147 | the filter is never longer than its input, and an entry is in the output iff it is in the input and its cell is not the opponent's |
| MoveGeneration.PossibleMovesAreTakeableBorderCubes | quixo/main.py:138-147 | a cell is offered to player p iff it is on the border and not held by `1 - p`, so an opponent-held cube is never offered; at most 17 entries |
| MoveGeneration.TakeablesKeepsAllWhenNoneHeld | quixo/main.py:138-147 | for any list of cubes none of whose cells the opponent holds, the filter returns the whole list in its order |
| MinimaxAgent.MinimaxPlayer.GetPossibleMoves | quixo/main.py:138-147 | the loop that appends each takeable border cube returns the order-preserving filter of the border list |
| Evaluation.Count | quixo/main.py:119 | the number of cells holding the player's mark is at most the length of the line |
| Evaluation.MaxLineCount | quixo/main.py:113-135 | the running maximum, kept from 0 and replaced only on a strictly larger count, never exceeds 5 |
| Evaluation.Heuristic | quixo/main.py:113-136 | the heuristic never exceeds 5, the length of a line; `HeuristicIsLineMax` states it is the largest line count |
| Evaluation.MaxLineCountIsMax | quixo/main.py:113-135 | after scanning k >= 1 lines, the running maximum is at least each scanned count and equals one of them |
| Evaluation.HeuristicIsLineMax | quixo/main.py:113-136 | the heuristic lies in 0..5, is at least the count on each of the 12 lines, and equals the count on one of them |
| Evaluation.CountSeesOnlyMarks | quixo/main.py:119-133 | two lines that hold the player's mark in the same places have the same count |
| Evaluation.MaxLineCountSeesOnlyMarks | quixo/main.py:113-135 | two boards on which the player holds the same cells have the same running maximum after any number of lines |
| Evaluation.HeuristicSeesOnlyOwnMarks | quixo/main.py:113-136 | the heuristic depends only on which cells hold the agent's mark; opponent and empty cells never change it |
| MinimaxAgent.MinimaxPlayer.CheckBoard | quixo/main.py:113-136 | the scan of rows, then columns, then the two diagonals returns the heuristic |
| Evaluation.StateValue | quixo/main.py:98-111 | the value lies in -5..5; it is 5 when the agent has won; it is -5 iff the opponent has won; otherwise it is the heuristic |
| MinimaxAgent.MinimaxPlayer.StateValue | quixo/main.py:98-111 | the method's winner tests and heuristic call return the board value |
| Search.Mover | quixo/main.py:45-83 | the agent moves exactly on maximising plies (`self.player_id` at lines 45 and 53) and the opponent on minimising ones (`1 - self.player_id` at lines 75 and 83) |
| Search.Start | quixo/main.py:42-73 | a node starts with no trials, no move, the bounds it was given and the mover's worst infinity, so its best value is the starting infinity exactly when it has no move |
| Search.Record | quixo/main.py:57-60 | recording a trial (and lines 86-89) leaves the bounds alone, stores the bounds the child search was given, makes the best value the better of the old best and the child's value, keeps the old move on a tie, and keeps a cut-off node cut off |
| Search.Cutoff | quixo/main.py:62-63 | the pruning test (and lines 91-92) holds only when the best value lies outside the open window between alpha and beta |
| Search.Tighten | quixo/main.py:62-65 | the bound update (and line 94) changes only the mover's own bound, in the tightening direction, and keeps alpha <= beta when applied after a record that was not cut off |
| Search.Minimax | quixo/main.py:33-96 | every search result lies between -inf and +inf |
| Search.Explore | quixo/main.py:39-96 | the final best value of a non-terminal node lies between -inf and +inf |
| Search.ExplorePositions | quixo/main.py:48-65 | the outer loop over cubes keeps the best value between -inf and +inf |
| Search.ExploreSlides | quixo/main.py:50-65 | the inner loop over slides keeps the best value between -inf and +inf |
| Search.TerminalReturnsStateValue | quixo/main.py:35-37 | at depth 0, or when the board has a winner, the search returns the board value and no move, whatever the bounds |
| Search.RecordKeepsSelection | quixo/main.py:57-60 | recording a trial with a strict-improvement update keeps the best value the best explored value and the best move the first trial that reached it |
| Search.SlidesKeepSelection | quixo/main.py:50-65 | over the slide loop, the best value stays the best of the explored values and the best move the first to reach it; trials only grow; only the mover's bound tightens; every trial is a legal move of the mover |
| Search.SlidesDominateTerminalChildren | quixo/main.py:50-65 | after the slide loop, for each legal slide whose child is terminal, the best value is at least as good as that child's value or the node is cut off |
| Search.SlidesTryALegalSlide | quixo/main.py:50-63 | if a cube has a legal slide, the slide loop tries at least one move from that cube |
| Search.PositionsKeepSelection | quixo/main.py:48-65 | the cube loop keeps the same selection, progress and legality facts as the slide loop |
| Search.PositionsDominateTerminalChildren | quixo/main.py:48-65 | after the cube loop, every legal move to a terminal child is dominated by the best value or the node is cut off |
| Search.PositionsTryEveryMovableCube | quixo/main.py:48-65 | the cube loop tries a move from every listed cube that has a legal slide |
| Search.NodeSelectsFirstBest | quixo/main.py:40-96 | a node's value is the maximum (maximising) or minimum (minimising) of the explored children; its move is the first explored move reaching it; there is no move iff the value is still the starting infinity; every explored move is legal for that ply's mover, which is the agent when maximising and the opponent when minimising, and its value is its child's search at `depth - 1` by the other side with the bounds current at that trial |
| Search.NodeBoundsOnlyTighten | quixo/main.py:62-94 | within a maximising node alpha never decreases and beta is unchanged; within a minimising node beta never increases and alpha is unchanged; a node entered with alpha <= beta keeps alpha <= beta and gives every child search ordered bounds |
| Search.SlidesKeepBoundsOrdered | quixo/main.py:50-65 | the slide loop keeps alpha <= beta, because alpha is raised only below beta and beta lowered only above alpha, and every trial's child search gets ordered bounds |
| Search.PositionsKeepBoundsOrdered | quixo/main.py:48-65 | the cube loop keeps alpha <= beta and gives every child search ordered bounds |
| Search.SlidesKeepAlphaFromEarlier | quixo/main.py:50-94 | over the slide loop, the node's alpha and the alpha each trial's child search was given stay the entry alpha or the value of an earlier trial |
| Search.PositionsKeepAlphaFromEarlier | quixo/main.py:48-94 | the cube loop keeps the same fact about every alpha the node holds or hands to a child |
| Search.NodeAlphaFromEarlierTrials | quixo/main.py:40-96 | every alpha a node holds or hands to a child search is the alpha it was entered with or the value of one of its earlier children |
| Search.SlidesTryEveryLegalSlide | quixo/main.py:50-65 | after the slide loop, every legal slide of the cube was tried, unless the node is cut off |
| Search.PositionsTryEveryLegalMove | quixo/main.py:48-65 | after the cube loop, every legal move from a listed cube was tried, unless the node is cut off |
| Search.UncutNodeTriesEveryLegalMove | quixo/main.py:40-96 | when a node ends without a cutoff, every legal move of the mover from a cube it may take was tried, and the node's value is at least as good as that trial's value |
| Search.CutoffSkipsOnlySlides | quixo/main.py:48-65 | a cutoff skips only the remaining slides of the current cube: every takeable cube with a legal slide still has a move tried |
| Search.NodeDominatesTerminalChildren | quixo/main.py:48-96 | for every legal move to a terminal child, the node's value is at least as good as that child's value, unless the node was cut off |
| Search.BestMoveIsLegal | quixo/main.py:45-60 | a returned move is a legal move of that ply's mover, from a cube the mover may take |
| Search.RootCoversTerminalChildren | quixo/main.py:26-31 | with the root's bounds -inf and +inf, the value is at least the board value of every legal child that is terminal |
| Search.RootTakesImmediateWin | quixo/main.py:26-31 | when one legal move of the agent wins at once, the root search at any depth >= 1 returns a winning value and some move, not necessarily the winning one, since ties keep the first move found |
| Search.RootAvoidsImmediateLoss | quixo/main.py:26-96 | at depth 2 or more, if the root returns a move after which the game has no winner yet but the opponent has a legal winning reply from a cube it may take, the root's value is a loss (at most -5): the agent walks into an immediate defeat only when nothing scores better |
| Search.DepthOneIsGreedy | quixo/main.py:26-67 | a depth-1 root search returns the largest board value among the agent's legal children, and its move leads to a child with that value |
| Search.DepthOneMovesWhenItCan | quixo/main.py:26-67 | a depth-1 root search returns no move iff the agent has no legal move |
| MinimaxAgent.MinimaxPlayer.Minimax | quixo/main.py:33-96 | the terminal test, then the ply of the side to move, return exactly the value and move of the recursive search |
| MinimaxAgent.MinimaxPlayer.MaximizingPly | quixo/main.py:40-67 | the agent's nested loops, with the strict update on `eval > max_eval`, the inner-loop `break` at `max_eval >= beta` and `alpha = max(alpha, eval)`, return the best value and move of the node's recursive description |
| MinimaxAgent.MinimaxPlayer.MinimizingPly | quixo/main.py:70-96 | the opponent's nested loops, with the strict update on `eval < min_eval`, the inner-loop `break` at `min_eval <= alpha` and `beta = min(beta, min_eval)`, return the best value and move of the node's recursive description |
| MinimaxAgent.MinimaxPlayer.MakeMove | quixo/main.py:26-31 | sets the agent's identity to the player to move and returns the root search's move, which is legal for the agent and from a cube it may take |
| MinimaxAgent.MinimaxPlayer.constructor | quixo/main.py:15-24 | a new player has the given search depth, 3 when none is given, and no identity yet |

## Left out

- `RandomPlayer` (quixo/main.py:5-12) is not modelled. Its moves are random, so there is nothing to state about them.
- The `__main__` driver (quixo/main.py:149-162) is not modelled. It plays two games and prints the results, which is I/O.
- The game module's slide legality, winner detection, board printing and game loop are not part of this model. The search sees them only through the `Rules` parameter.
- `deepcopy` and the numpy `shape` and `sum` calls become immutable values and explicit counting.
- The player stores `border_cubes` and `possible_slides` on each instance but never changes them. Here they are the module constants `BorderCubes` and `PossibleSlides`.
- Scores are integers scaled by 5, not floats. The engine divides the heuristic count by 5; the model keeps the count.
- Negative search depths are not modelled, because the depth is a `nat`. The engine does not stop on a negative depth until a winner appears or no move is legal.
- Calling the search before `MakeMove` has set the identity is not modelled (`requires playerId.Some?`). The engine would fail on `1 - None`.
- Nothing here claims that the pruned search returns the value of unpruned minimax. The bounds are updated from a child's value (maximising) and from the running minimum (minimising), and a cutoff stops only the slide loop, so the code does not promise that equivalence.
