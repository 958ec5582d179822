/** Depth-limited minimax with the engine's own alpha-beta pruning, as
    recursive functions. One node scans the mover's takeable border cubes and,
    for each, the four slides; a cutoff leaves the remaining slides of the
    current cube and moves on to the next cube. The maximising ply raises alpha
    from each child's value; the minimising ply lowers beta from its running
    minimum. */
module Search {
  import opened QuixoTypes
  import opened MoveGeneration
  import opened Evaluation

  /** Stand-ins for the engine's -inf and +inf. Every score is within
      LossScore..WinScore, strictly between them, so comparisons, `max` and
      `min` give the same answers as with the infinities. */
  const NegInf := -6
  const PosInf := 6

  predicate InRange(v: int) {
    NegInf <= v <= PosInf
  }

  function Max(a: int, b: int): int { if a >= b then a else b }
  function Min(a: int, b: int): int { if a <= b then a else b }

  /** A legal move tried at a node, the bounds its child search was given, and
      the value that search returned. */
  datatype Trial = Trial(move: Move, alpha: int, beta: int, eval: int)

  /** The loop state of one node: the running best value (`max_eval` or
      `min_eval`), the best move, the current bounds, and the trials made so
      far, in order. */
  datatype Node = Node(best: int, move: Option<Move>, alpha: int, beta: int, explored: seq<Trial>)

  /** Who moves at a ply: the agent on maximising plies, the opponent on
      minimising ones. */
  function Mover(me: Player, maximizing: bool): (m: Player)
    ensures m == me <==> maximizing
  {
    if maximizing then me else Opponent(me)
  }

  /** A node before its first trial: the mover's worst infinity, no move, the
      bounds it was given. */
  function Start(alpha: int, beta: int, maximizing: bool): (n: Node)
    ensures n.explored == [] && n.alpha == alpha && n.beta == beta
    ensures InRange(n.best) && Selected(n, maximizing)
  {
    Node(if maximizing then NegInf else PosInf, None, alpha, beta, [])
  }

  /** Records a trial: the best value and move change only on a strict
      improvement, so a tie keeps the earlier move; the bounds stay as they are,
      and a node already cut off stays cut off. */
  function Record(n: Node, m: Move, e: int, maximizing: bool): (n': Node)
    ensures n'.explored == n.explored + [Trial(m, n.alpha, n.beta, e)]
    ensures n'.alpha == n.alpha && n'.beta == n.beta
    ensures n'.best == if maximizing then Max(n.best, e) else Min(n.best, e)
    ensures n'.move == if AtLeastAsGood(n.best, e, maximizing) then n.move else Some(m)
    ensures Cutoff(n, maximizing) ==> Cutoff(n', maximizing)
  {
    var improves := if maximizing then e > n.best else e < n.best;
    n.(best := if improves then e else n.best,
       move := if improves then Some(m) else n.move,
       explored := n.explored + [Trial(m, n.alpha, n.beta, e)])
  }

  /** The pruning test: the best value has reached the bound of the other side,
      so it lies outside the open window between alpha and beta. */
  predicate Cutoff(n: Node, maximizing: bool)
    ensures Cutoff(n, maximizing) ==> !(n.alpha < n.best < n.beta)
  {
    if maximizing then n.best >= n.beta else n.best <= n.alpha
  }

  /** Bound update after a trial that was not cut off: alpha from the child's
      value on a maximising ply, beta from the running minimum on a minimising one. */
  function Tighten(n: Node, e: int, maximizing: bool): (n': Node)
    ensures n'.best == n.best && n'.move == n.move && n'.explored == n.explored
    ensures if maximizing then n'.beta == n.beta && n'.alpha >= n.alpha else n'.alpha == n.alpha && n'.beta <= n.beta
    ensures n.alpha <= n.beta && !Cutoff(n, maximizing) && (maximizing ==> e <= n.best) ==> n'.alpha <= n'.beta
  {
    if maximizing then n.(alpha := Max(n.alpha, e)) else n.(beta := Min(n.beta, n.best))
  }

  /** The value and best move of a search of depth `depth` from board `b`, for
      agent `me`. */
  function Minimax(r: Rules, me: Player, b: Board, depth: nat, alpha: int, beta: int, maximizing: bool): (res: (int, Option<Move>))
    ensures InRange(res.0)
    decreases depth, 3
  {
    if depth == 0 || r.winner(b) >= 0 then (StateValue(r, me, b), None)
    else
      var n := Explore(r, me, b, depth, alpha, beta, maximizing);
      (n.best, n.move)
  }

  /** The final loop state of a node that is not terminal. */
  function Explore(r: Rules, me: Player, b: Board, depth: nat, alpha: int, beta: int, maximizing: bool): (n: Node)
    requires depth > 0
    ensures InRange(n.best)
    decreases depth, 2
  {
    ExplorePositions(r, me, b, depth, maximizing, Start(alpha, beta, maximizing), PossibleMoves(b, Mover(me, maximizing)))
  }

  /** The outer loop: each cube of `ps`, in order. */
  function ExplorePositions(r: Rules, me: Player, b: Board, depth: nat, maximizing: bool, n: Node, ps: seq<Pos>): (n': Node)
    requires depth > 0 && InRange(n.best)
    ensures InRange(n'.best)
    decreases depth, 1, |ps|
  {
    if ps == [] then n
    else ExplorePositions(r, me, b, depth, maximizing, ExploreSlides(r, me, b, depth, maximizing, n, ps[0], PossibleSlides), ps[1..])
  }

  /** The inner loop: the slides `ds` of cube `pos`, in order, stopping after a
      cutoff. */
  function ExploreSlides(r: Rules, me: Player, b: Board, depth: nat, maximizing: bool, n: Node, pos: Pos, ds: seq<Dir>): (n': Node)
    requires depth > 0 && InRange(n.best)
    ensures InRange(n'.best)
    decreases depth, 0, |ds|
  {
    if ds == [] then n
    else match r.move(b, pos, ds[0], Mover(me, maximizing))
      case None => ExploreSlides(r, me, b, depth, maximizing, n, pos, ds[1..])
      case Some(child) =>
        var e := Minimax(r, me, child, depth - 1, n.alpha, n.beta, !maximizing).0;
        var n1 := Record(n, Move(pos, ds[0]), e, maximizing);
        if Cutoff(n1, maximizing) then n1
        else ExploreSlides(r, me, b, depth, maximizing, Tighten(n1, e, maximizing), pos, ds[1..])
  }

  // ---------------------------------------------------------------------------
  // What a node's loop state satisfies

  /** `v` is at least as good as `w` for the side that moves. */
  predicate AtLeastAsGood(v: int, w: int, maximizing: bool) {
    if maximizing then v >= w else v <= w
  }

  /** Trial `k` is the first of `ts` whose value is `v`. */
  predicate FirstReaching(ts: seq<Trial>, k: int, v: int) {
    0 <= k < |ts| && ts[k].eval == v && forall j :: 0 <= j < k ==> ts[j].eval != v
  }

  /** The best value is the best of the explored values (or the starting
      infinity), and the best move is the first trial that reached it; there is
      no best move exactly when the best value is still the starting infinity. */
  ghost predicate Selected(n: Node, maximizing: bool) {
    var sentinel := if maximizing then NegInf else PosInf;
    (forall t :: t in n.explored ==> AtLeastAsGood(n.best, t.eval, maximizing))
    && AtLeastAsGood(n.best, sentinel, maximizing)
    && (n.move.None? <==> n.best == sentinel)
    && (n.move.Some? ==> exists k :: FirstReaching(n.explored, k, n.best) && n.explored[k].move == n.move.value)
  }

  /** From `n0` to `n` the trials only grow, the best value only improves, and
      only the mover's own bound moves, in the tightening direction. */
  ghost predicate Progress(n0: Node, n: Node, maximizing: bool) {
    n0.explored <= n.explored
    && AtLeastAsGood(n.best, n0.best, maximizing)
    && if maximizing then n.beta == n0.beta && n.alpha >= n0.alpha
       else n.alpha == n0.alpha && n.beta <= n0.beta
  }

  /** The node's bounds are ordered, and so were the bounds every child search
      was given. */
  ghost predicate BoundsOrdered(n: Node) {
    n.alpha <= n.beta && forall t :: t in n.explored ==> t.alpha <= t.beta
  }

  /** Every alpha the node has held, its own and the one each trial's child
      search was given, is the alpha the node was entered with or the value of
      an earlier trial. */
  ghost predicate AlphaFromEarlier(n: Node, alpha0: int) {
    (n.alpha == alpha0 || exists j :: 0 <= j < |n.explored| && n.alpha == n.explored[j].eval)
    && forall i :: 0 <= i < |n.explored| ==>
         n.explored[i].alpha == alpha0 || exists j :: 0 <= j < i && n.explored[i].alpha == n.explored[j].eval
  }

  predicate IsTerminalChild(r: Rules, child: Board, depth: nat) {
    depth == 1 || r.winner(child) >= 0
  }

  /** A trial is a legal move of the mover from a takeable border cube; its
      value is that of the child searched one level shallower by the other side,
      with the trial's bounds; so a terminal child was valued by `StateValue`. */
  ghost predicate TrialSound(r: Rules, me: Player, b: Board, depth: nat, maximizing: bool, t: Trial) {
    var mover := Mover(me, maximizing);
    t.move.pos in PossibleMoves(b, mover)
    && r.move(b, t.move.pos, t.move.dir, mover).Some?
    && depth > 0
    && t.eval == Minimax(r, me, r.move(b, t.move.pos, t.move.dir, mover).value, depth - 1, t.alpha, t.beta, !maximizing).0
    && InRange(t.eval)
    && (IsTerminalChild(r, r.move(b, t.move.pos, t.move.dir, mover).value, depth)
        ==> t.eval == StateValue(r, me, r.move(b, t.move.pos, t.move.dir, mover).value))
  }

  ghost predicate AllSound(r: Rules, me: Player, b: Board, depth: nat, maximizing: bool, ts: seq<Trial>) {
    forall t :: t in ts ==> TrialSound(r, me, b, depth, maximizing, t)
  }

  /** The node's value is at least as good as `v`, or the node was cut off. */
  predicate Dominates(n: Node, v: int, maximizing: bool) {
    AtLeastAsGood(n.best, v, maximizing) || Cutoff(n, maximizing)
  }

  /** If sliding `pos` in `d` is legal and leads to a terminal child, the node's
      value is at least as good as that child's value, or the node was cut off. */
  predicate ChildDominated(r: Rules, me: Player, b: Board, depth: nat, maximizing: bool, n: Node, pos: Pos, d: Dir) {
    match r.move(b, pos, d, Mover(me, maximizing))
    case None => true
    case Some(c) => IsTerminalChild(r, c, depth) ==> Dominates(n, StateValue(r, me, c), maximizing)
  }

  predicate HasLegalSlide(r: Rules, b: Board, pos: Pos, mover: Player) {
    exists d :: d in PossibleSlides && r.move(b, pos, d, mover).Some?
  }

  /** Sliding `pos` in `d` is illegal, or the node was cut off, or that move was tried. */
  ghost predicate ChildTried(r: Rules, me: Player, b: Board, maximizing: bool, n: Node, pos: Pos, d: Dir) {
    r.move(b, pos, d, Mover(me, maximizing)).None?
    || Cutoff(n, maximizing)
    || exists t :: t in n.explored && t.move == Move(pos, d)
  }

  // ---------------------------------------------------------------------------
  // The inner loop

  lemma {:induction false} SlidesKeepSelection(r: Rules, me: Player, b: Board, depth: nat, maximizing: bool, n: Node, pos: Pos, ds: seq<Dir>)
    requires depth > 0 && InRange(n.best)
    requires pos in PossibleMoves(b, Mover(me, maximizing))
    requires Selected(n, maximizing) && AllSound(r, me, b, depth, maximizing, n.explored)
    ensures var n' := ExploreSlides(r, me, b, depth, maximizing, n, pos, ds);
      Selected(n', maximizing) && Progress(n, n', maximizing) && AllSound(r, me, b, depth, maximizing, n'.explored)
    decreases |ds|
  {
    if ds != [] {
      var mover := Mover(me, maximizing);
      match r.move(b, pos, ds[0], mover)
      case None =>
        SlidesKeepSelection(r, me, b, depth, maximizing, n, pos, ds[1..]);
      case Some(child) =>
        var res := Minimax(r, me, child, depth - 1, n.alpha, n.beta, !maximizing);
        var e := res.0;
        var m := Move(pos, ds[0]);
        var n1 := Record(n, m, e, maximizing);
        RecordKeepsSelection(n, m, e, maximizing);
        assert TrialSound(r, me, b, depth, maximizing, Trial(m, n.alpha, n.beta, e));
        assert AllSound(r, me, b, depth, maximizing, n1.explored);
        if !Cutoff(n1, maximizing) {
          var n2 := Tighten(n1, e, maximizing);
          SlidesKeepSelection(r, me, b, depth, maximizing, n2, pos, ds[1..]);
        }
    }
  }

  lemma RecordKeepsSelection(n: Node, m: Move, e: int, maximizing: bool)
    requires Selected(n, maximizing)
    ensures Selected(Record(n, m, e, maximizing), maximizing)
    ensures Progress(n, Record(n, m, e, maximizing), maximizing)
  {
    var n1 := Record(n, m, e, maximizing);
    var improves := if maximizing then e > n.best else e < n.best;
    if improves {
      assert FirstReaching(n1.explored, |n.explored|, e);
    } else if n.move.Some? {
      var k :| FirstReaching(n.explored, k, n.best) && n.explored[k].move == n.move.value;
      assert FirstReaching(n1.explored, k, n1.best);
    }
  }

  lemma {:induction false} SlidesDominateTerminalChildren(r: Rules, me: Player, b: Board, depth: nat, maximizing: bool, n: Node, pos: Pos, ds: seq<Dir>)
    requires depth > 0 && InRange(n.best)
    requires pos in PossibleMoves(b, Mover(me, maximizing))
    requires Selected(n, maximizing) && AllSound(r, me, b, depth, maximizing, n.explored)
    ensures var n' := ExploreSlides(r, me, b, depth, maximizing, n, pos, ds);
      forall d :: d in ds ==> ChildDominated(r, me, b, depth, maximizing, n', pos, d)
    decreases |ds|
  {
    if ds != [] {
      var mover := Mover(me, maximizing);
      var n' := ExploreSlides(r, me, b, depth, maximizing, n, pos, ds);
      match r.move(b, pos, ds[0], mover)
      case None =>
        SlidesDominateTerminalChildren(r, me, b, depth, maximizing, n, pos, ds[1..]);
        forall d | d in ds ensures ChildDominated(r, me, b, depth, maximizing, n', pos, d) {
          if d != ds[0] {
            assert d in ds[1..];
          }
        }
      case Some(child) =>
        var e := Minimax(r, me, child, depth - 1, n.alpha, n.beta, !maximizing).0;
        var n1 := Record(n, Move(pos, ds[0]), e, maximizing);
        RecordKeepsSelection(n, Move(pos, ds[0]), e, maximizing);
        assert AllSound(r, me, b, depth, maximizing, n1.explored) by {
          assert TrialSound(r, me, b, depth, maximizing, Trial(Move(pos, ds[0]), n.alpha, n.beta, e));
        }
        if !Cutoff(n1, maximizing) {
          var n2 := Tighten(n1, e, maximizing);
          SlidesDominateTerminalChildren(r, me, b, depth, maximizing, n2, pos, ds[1..]);
          SlidesKeepSelection(r, me, b, depth, maximizing, n2, pos, ds[1..]);
          assert ChildDominated(r, me, b, depth, maximizing, n', pos, ds[0]);
        }
    }
  }

  lemma {:induction false} SlidesTryALegalSlide(r: Rules, me: Player, b: Board, depth: nat, maximizing: bool, n: Node, pos: Pos, ds: seq<Dir>)
    requires depth > 0 && InRange(n.best)
    requires pos in PossibleMoves(b, Mover(me, maximizing))
    requires Selected(n, maximizing) && AllSound(r, me, b, depth, maximizing, n.explored)
    requires exists d :: d in ds && r.move(b, pos, d, Mover(me, maximizing)).Some?
    ensures exists t :: t in ExploreSlides(r, me, b, depth, maximizing, n, pos, ds).explored && t.move.pos == pos
    decreases |ds|
  {
    var mover := Mover(me, maximizing);
    var n' := ExploreSlides(r, me, b, depth, maximizing, n, pos, ds);
    match r.move(b, pos, ds[0], mover)
    case None =>
      var d :| d in ds && r.move(b, pos, d, mover).Some?;
      assert d in ds[1..];
      SlidesTryALegalSlide(r, me, b, depth, maximizing, n, pos, ds[1..]);
    case Some(child) =>
      var e := Minimax(r, me, child, depth - 1, n.alpha, n.beta, !maximizing).0;
      var n1 := Record(n, Move(pos, ds[0]), e, maximizing);
      RecordKeepsSelection(n, Move(pos, ds[0]), e, maximizing);
      assert Trial(Move(pos, ds[0]), n.alpha, n.beta, e) in n1.explored;
      if !Cutoff(n1, maximizing) {
        var n2 := Tighten(n1, e, maximizing);
        assert AllSound(r, me, b, depth, maximizing, n2.explored) by {
          assert TrialSound(r, me, b, depth, maximizing, Trial(Move(pos, ds[0]), n.alpha, n.beta, e));
        }
        SlidesKeepSelection(r, me, b, depth, maximizing, n2, pos, ds[1..]);
        assert Trial(Move(pos, ds[0]), n.alpha, n.beta, e) in n'.explored;
      }
  }

  lemma {:induction false} SlidesTryEveryLegalSlide(r: Rules, me: Player, b: Board, depth: nat, maximizing: bool, n: Node, pos: Pos, ds: seq<Dir>)
    requires depth > 0 && InRange(n.best)
    requires pos in PossibleMoves(b, Mover(me, maximizing))
    requires Selected(n, maximizing) && AllSound(r, me, b, depth, maximizing, n.explored)
    ensures var n' := ExploreSlides(r, me, b, depth, maximizing, n, pos, ds);
      forall d :: d in ds ==> ChildTried(r, me, b, maximizing, n', pos, d)
    decreases |ds|
  {
    if ds != [] {
      var mover := Mover(me, maximizing);
      var n' := ExploreSlides(r, me, b, depth, maximizing, n, pos, ds);
      match r.move(b, pos, ds[0], mover)
      case None =>
        SlidesTryEveryLegalSlide(r, me, b, depth, maximizing, n, pos, ds[1..]);
        forall d | d in ds ensures ChildTried(r, me, b, maximizing, n', pos, d) {
          if d != ds[0] {
            assert d in ds[1..];
          }
        }
      case Some(child) =>
        var e := Minimax(r, me, child, depth - 1, n.alpha, n.beta, !maximizing).0;
        var t := Trial(Move(pos, ds[0]), n.alpha, n.beta, e);
        var n1 := Record(n, Move(pos, ds[0]), e, maximizing);
        RecordKeepsSelection(n, Move(pos, ds[0]), e, maximizing);
        assert t in n1.explored;
        if !Cutoff(n1, maximizing) {
          var n2 := Tighten(n1, e, maximizing);
          assert AllSound(r, me, b, depth, maximizing, n2.explored) by {
            assert TrialSound(r, me, b, depth, maximizing, t);
          }
          SlidesTryEveryLegalSlide(r, me, b, depth, maximizing, n2, pos, ds[1..]);
          SlidesKeepSelection(r, me, b, depth, maximizing, n2, pos, ds[1..]);
          assert t in n'.explored;
          forall d | d in ds ensures ChildTried(r, me, b, maximizing, n', pos, d) {
            if d != ds[0] {
              assert d in ds[1..];
            }
          }
        }
    }
  }

  lemma {:induction false} SlidesKeepBoundsOrdered(r: Rules, me: Player, b: Board, depth: nat, maximizing: bool, n: Node, pos: Pos, ds: seq<Dir>)
    requires depth > 0 && InRange(n.best)
    requires BoundsOrdered(n)
    ensures BoundsOrdered(ExploreSlides(r, me, b, depth, maximizing, n, pos, ds))
    decreases |ds|
  {
    if ds != [] {
      match r.move(b, pos, ds[0], Mover(me, maximizing))
      case None =>
        SlidesKeepBoundsOrdered(r, me, b, depth, maximizing, n, pos, ds[1..]);
      case Some(child) =>
        var e := Minimax(r, me, child, depth - 1, n.alpha, n.beta, !maximizing).0;
        var n1 := Record(n, Move(pos, ds[0]), e, maximizing);
        if !Cutoff(n1, maximizing) {
          SlidesKeepBoundsOrdered(r, me, b, depth, maximizing, Tighten(n1, e, maximizing), pos, ds[1..]);
        }
    }
  }

  lemma {:induction false} SlidesKeepAlphaFromEarlier(r: Rules, me: Player, b: Board, depth: nat, maximizing: bool, n: Node, pos: Pos, ds: seq<Dir>, alpha0: int)
    requires depth > 0 && InRange(n.best)
    requires AlphaFromEarlier(n, alpha0)
    ensures AlphaFromEarlier(ExploreSlides(r, me, b, depth, maximizing, n, pos, ds), alpha0)
    decreases |ds|
  {
    if ds != [] {
      match r.move(b, pos, ds[0], Mover(me, maximizing))
      case None =>
        SlidesKeepAlphaFromEarlier(r, me, b, depth, maximizing, n, pos, ds[1..], alpha0);
      case Some(child) =>
        var e := Minimax(r, me, child, depth - 1, n.alpha, n.beta, !maximizing).0;
        var n1 := Record(n, Move(pos, ds[0]), e, maximizing);
        var k := |n.explored|;
        assert n1.explored[k] == Trial(Move(pos, ds[0]), n.alpha, n.beta, e);
        assert AlphaFromEarlier(n1, alpha0) by {
          forall i | 0 <= i < |n1.explored|
            ensures n1.explored[i].alpha == alpha0 || exists j :: 0 <= j < i && n1.explored[i].alpha == n1.explored[j].eval
          {
            if i < k {
              assert n1.explored[i] == n.explored[i];
              if n1.explored[i].alpha != alpha0 {
                var j :| 0 <= j < i && n.explored[i].alpha == n.explored[j].eval;
                assert n1.explored[j] == n.explored[j];
              }
            } else if n.alpha != alpha0 {
              var j :| 0 <= j < k && n.alpha == n.explored[j].eval;
              assert n1.explored[j] == n.explored[j];
            }
          }
          if n.alpha != alpha0 {
            var j :| 0 <= j < k && n.alpha == n.explored[j].eval;
            assert n1.explored[j] == n.explored[j];
          }
        }
        if !Cutoff(n1, maximizing) {
          var n2 := Tighten(n1, e, maximizing);
          assert AlphaFromEarlier(n2, alpha0) by {
            if n2.alpha != n1.alpha {
              assert n2.alpha == n1.explored[k].eval;
            }
          }
          SlidesKeepAlphaFromEarlier(r, me, b, depth, maximizing, n2, pos, ds[1..], alpha0);
        }
    }
  }

  // ---------------------------------------------------------------------------
  // The outer loop

  lemma {:induction false} PositionsKeepSelection(r: Rules, me: Player, b: Board, depth: nat, maximizing: bool, n: Node, ps: seq<Pos>)
    requires depth > 0 && InRange(n.best)
    requires forall p :: p in ps ==> p in PossibleMoves(b, Mover(me, maximizing))
    requires Selected(n, maximizing) && AllSound(r, me, b, depth, maximizing, n.explored)
    ensures var n' := ExplorePositions(r, me, b, depth, maximizing, n, ps);
      Selected(n', maximizing) && Progress(n, n', maximizing) && AllSound(r, me, b, depth, maximizing, n'.explored)
    decreases |ps|
  {
    if ps != [] {
      SlidesKeepSelection(r, me, b, depth, maximizing, n, ps[0], PossibleSlides);
      PositionsKeepSelection(r, me, b, depth, maximizing, ExploreSlides(r, me, b, depth, maximizing, n, ps[0], PossibleSlides), ps[1..]);
    }
  }

  lemma {:induction false} PositionsDominateTerminalChildren(r: Rules, me: Player, b: Board, depth: nat, maximizing: bool, n: Node, ps: seq<Pos>)
    requires depth > 0 && InRange(n.best)
    requires forall p :: p in ps ==> p in PossibleMoves(b, Mover(me, maximizing))
    requires Selected(n, maximizing) && AllSound(r, me, b, depth, maximizing, n.explored)
    ensures var n' := ExplorePositions(r, me, b, depth, maximizing, n, ps);
      forall p, d :: p in ps && d in PossibleSlides ==> ChildDominated(r, me, b, depth, maximizing, n', p, d)
    decreases |ps|
  {
    if ps != [] {
      var n' := ExplorePositions(r, me, b, depth, maximizing, n, ps);
      var mid := ExploreSlides(r, me, b, depth, maximizing, n, ps[0], PossibleSlides);
      SlidesDominateTerminalChildren(r, me, b, depth, maximizing, n, ps[0], PossibleSlides);
      SlidesKeepSelection(r, me, b, depth, maximizing, n, ps[0], PossibleSlides);
      PositionsDominateTerminalChildren(r, me, b, depth, maximizing, mid, ps[1..]);
      PositionsKeepSelection(r, me, b, depth, maximizing, mid, ps[1..]);
      forall p, d | p in ps && d in PossibleSlides ensures ChildDominated(r, me, b, depth, maximizing, n', p, d) {
        if p != ps[0] {
          assert p in ps[1..];
        } else {
          assert ChildDominated(r, me, b, depth, maximizing, mid, p, d);
        }
      }
    }
  }

  lemma {:induction false} PositionsTryEveryMovableCube(r: Rules, me: Player, b: Board, depth: nat, maximizing: bool, n: Node, ps: seq<Pos>)
    requires depth > 0 && InRange(n.best)
    requires forall p :: p in ps ==> p in PossibleMoves(b, Mover(me, maximizing))
    requires Selected(n, maximizing) && AllSound(r, me, b, depth, maximizing, n.explored)
    ensures var n' := ExplorePositions(r, me, b, depth, maximizing, n, ps);
      forall p :: p in ps && HasLegalSlide(r, b, p, Mover(me, maximizing)) ==> exists t :: t in n'.explored && t.move.pos == p
    decreases |ps|
  {
    if ps != [] {
      var mover := Mover(me, maximizing);
      var n' := ExplorePositions(r, me, b, depth, maximizing, n, ps);
      var mid := ExploreSlides(r, me, b, depth, maximizing, n, ps[0], PossibleSlides);
      SlidesKeepSelection(r, me, b, depth, maximizing, n, ps[0], PossibleSlides);
      PositionsTryEveryMovableCube(r, me, b, depth, maximizing, mid, ps[1..]);
      PositionsKeepSelection(r, me, b, depth, maximizing, mid, ps[1..]);
      forall p | p in ps && HasLegalSlide(r, b, p, mover) ensures exists t :: t in n'.explored && t.move.pos == p {
        if p != ps[0] {
          assert p in ps[1..];
        } else {
          SlidesTryALegalSlide(r, me, b, depth, maximizing, n, p, PossibleSlides);
          var t :| t in mid.explored && t.move.pos == p;
          assert t in n'.explored;
        }
      }
    }
  }

  lemma {:induction false} PositionsTryEveryLegalMove(r: Rules, me: Player, b: Board, depth: nat, maximizing: bool, n: Node, ps: seq<Pos>)
    requires depth > 0 && InRange(n.best)
    requires forall p :: p in ps ==> p in PossibleMoves(b, Mover(me, maximizing))
    requires Selected(n, maximizing) && AllSound(r, me, b, depth, maximizing, n.explored)
    ensures var n' := ExplorePositions(r, me, b, depth, maximizing, n, ps);
      forall p, d :: p in ps && d in PossibleSlides ==> ChildTried(r, me, b, maximizing, n', p, d)
    decreases |ps|
  {
    if ps != [] {
      var n' := ExplorePositions(r, me, b, depth, maximizing, n, ps);
      var mid := ExploreSlides(r, me, b, depth, maximizing, n, ps[0], PossibleSlides);
      SlidesTryEveryLegalSlide(r, me, b, depth, maximizing, n, ps[0], PossibleSlides);
      SlidesKeepSelection(r, me, b, depth, maximizing, n, ps[0], PossibleSlides);
      PositionsTryEveryLegalMove(r, me, b, depth, maximizing, mid, ps[1..]);
      PositionsKeepSelection(r, me, b, depth, maximizing, mid, ps[1..]);
      forall p, d | p in ps && d in PossibleSlides ensures ChildTried(r, me, b, maximizing, n', p, d) {
        if p != ps[0] {
          assert p in ps[1..];
        } else if !Cutoff(mid, maximizing) && r.move(b, p, d, Mover(me, maximizing)).Some? {
          var t :| t in mid.explored && t.move == Move(p, d);
          assert t in n'.explored;
        }
      }
    }
  }

  lemma {:induction false} PositionsKeepBoundsOrdered(r: Rules, me: Player, b: Board, depth: nat, maximizing: bool, n: Node, ps: seq<Pos>)
    requires depth > 0 && InRange(n.best)
    requires BoundsOrdered(n)
    ensures BoundsOrdered(ExplorePositions(r, me, b, depth, maximizing, n, ps))
    decreases |ps|
  {
    if ps != [] {
      SlidesKeepBoundsOrdered(r, me, b, depth, maximizing, n, ps[0], PossibleSlides);
      PositionsKeepBoundsOrdered(r, me, b, depth, maximizing, ExploreSlides(r, me, b, depth, maximizing, n, ps[0], PossibleSlides), ps[1..]);
    }
  }

  lemma {:induction false} PositionsKeepAlphaFromEarlier(r: Rules, me: Player, b: Board, depth: nat, maximizing: bool, n: Node, ps: seq<Pos>, alpha0: int)
    requires depth > 0 && InRange(n.best)
    requires AlphaFromEarlier(n, alpha0)
    ensures AlphaFromEarlier(ExplorePositions(r, me, b, depth, maximizing, n, ps), alpha0)
    decreases |ps|
  {
    if ps != [] {
      SlidesKeepAlphaFromEarlier(r, me, b, depth, maximizing, n, ps[0], PossibleSlides, alpha0);
      PositionsKeepAlphaFromEarlier(r, me, b, depth, maximizing, ExploreSlides(r, me, b, depth, maximizing, n, ps[0], PossibleSlides), ps[1..], alpha0);
    }
  }

  // ---------------------------------------------------------------------------
  // One node

  /** At a node that is not terminal, the returned value is the best value
      among the explored children (the maximum on a maximising ply, the minimum
      on a minimising one), the returned move is the first explored move that
      reached it, and there is no move exactly when the value is still the
      starting infinity; every explored move is a legal move of that ply's
      mover (the agent when maximising, the opponent when minimising) from a
      cube it may take, and its value is the search of its child one level
      shallower, by the other side, with the bounds current at that trial. */
  lemma NodeSelectsFirstBest(r: Rules, me: Player, b: Board, depth: nat, alpha: int, beta: int, maximizing: bool)
    requires depth > 0
    ensures var n := Explore(r, me, b, depth, alpha, beta, maximizing);
      Selected(n, maximizing) && AllSound(r, me, b, depth, maximizing, n.explored)
  {
    PositionsKeepSelection(r, me, b, depth, maximizing, Start(alpha, beta, maximizing), PossibleMoves(b, Mover(me, maximizing)));
  }

  /** Within a node, alpha never decreases and beta stays fixed on a maximising
      ply; beta never increases and alpha stays fixed on a minimising one. A
      node entered with alpha <= beta keeps alpha <= beta, and enters every
      child search with ordered bounds. */
  lemma NodeBoundsOnlyTighten(r: Rules, me: Player, b: Board, depth: nat, alpha: int, beta: int, maximizing: bool)
    requires depth > 0
    ensures var n := Explore(r, me, b, depth, alpha, beta, maximizing);
      if maximizing then n.alpha >= alpha && n.beta == beta else n.beta <= beta && n.alpha == alpha
    ensures var n := Explore(r, me, b, depth, alpha, beta, maximizing);
      alpha <= beta ==> n.alpha <= n.beta && forall t :: t in n.explored ==> t.alpha <= t.beta
  {
    PositionsKeepSelection(r, me, b, depth, maximizing, Start(alpha, beta, maximizing), PossibleMoves(b, Mover(me, maximizing)));
    if alpha <= beta {
      PositionsKeepBoundsOrdered(r, me, b, depth, maximizing, Start(alpha, beta, maximizing), PossibleMoves(b, Mover(me, maximizing)));
    }
  }

  /** Every alpha a node holds, and every alpha it hands to a child search, is
      the alpha it was entered with or the value of one of its earlier
      children: a maximising node raises alpha only to a child's value, and a
      minimising node never moves it. */
  lemma NodeAlphaFromEarlierTrials(r: Rules, me: Player, b: Board, depth: nat, alpha: int, beta: int, maximizing: bool)
    requires depth > 0
    ensures AlphaFromEarlier(Explore(r, me, b, depth, alpha, beta, maximizing), alpha)
  {
    PositionsKeepAlphaFromEarlier(r, me, b, depth, maximizing, Start(alpha, beta, maximizing), PossibleMoves(b, Mover(me, maximizing)), alpha);
  }

  /** A cutoff stops only the slides of the current cube: every cube the mover
      may take that has at least one legal slide is still tried. */
  lemma CutoffSkipsOnlySlides(r: Rules, me: Player, b: Board, depth: nat, alpha: int, beta: int, maximizing: bool, p: Pos)
    requires depth > 0
    requires p in PossibleMoves(b, Mover(me, maximizing)) && HasLegalSlide(r, b, p, Mover(me, maximizing))
    ensures exists t :: t in Explore(r, me, b, depth, alpha, beta, maximizing).explored && t.move.pos == p
  {
    PositionsTryEveryMovableCube(r, me, b, depth, maximizing, Start(alpha, beta, maximizing), PossibleMoves(b, Mover(me, maximizing)));
  }

  /** For every legal move of the mover whose child is terminal, the node's
      value is at least as good as that child's `StateValue`, unless the node
      was cut off by the opposite bound. */
  lemma NodeDominatesTerminalChildren(r: Rules, me: Player, b: Board, depth: nat, alpha: int, beta: int, maximizing: bool, p: Pos, d: Dir)
    requires depth > 0
    requires p in PossibleMoves(b, Mover(me, maximizing)) && d in PossibleSlides
    ensures ChildDominated(r, me, b, depth, maximizing, Explore(r, me, b, depth, alpha, beta, maximizing), p, d)
  {
    PositionsDominateTerminalChildren(r, me, b, depth, maximizing, Start(alpha, beta, maximizing), PossibleMoves(b, Mover(me, maximizing)));
  }

  /** When the node ends without a cutoff, every legal move of the mover from a
      cube it may take was tried, so the node's value is the best over all of
      its legal children. */
  lemma UncutNodeTriesEveryLegalMove(r: Rules, me: Player, b: Board, depth: nat, alpha: int, beta: int, maximizing: bool, p: Pos, d: Dir)
    requires depth > 0
    requires p in PossibleMoves(b, Mover(me, maximizing)) && r.move(b, p, d, Mover(me, maximizing)).Some?
    requires !Cutoff(Explore(r, me, b, depth, alpha, beta, maximizing), maximizing)
    ensures var n := Explore(r, me, b, depth, alpha, beta, maximizing);
      exists t :: t in n.explored && t.move == Move(p, d) && AtLeastAsGood(n.best, t.eval, maximizing)
  {
    NodeSelectsFirstBest(r, me, b, depth, alpha, beta, maximizing);
    EverySlideIsTried(d);
    PositionsTryEveryLegalMove(r, me, b, depth, maximizing, Start(alpha, beta, maximizing), PossibleMoves(b, Mover(me, maximizing)));
  }

  /** At depth 0, or once the board has a winner, the search returns the board's
      `StateValue` and no move, whatever the bounds. */
  lemma TerminalReturnsStateValue(r: Rules, me: Player, b: Board, depth: nat, alpha: int, beta: int, maximizing: bool)
    requires depth == 0 || r.winner(b) >= 0
    ensures Minimax(r, me, b, depth, alpha, beta, maximizing) == (StateValue(r, me, b), None)
  {
  }

  /** A move returned by the search is a legal move of that ply's mover from a
      cube it may take. */
  lemma BestMoveIsLegal(r: Rules, me: Player, b: Board, depth: nat, alpha: int, beta: int, maximizing: bool)
    ensures var m := Minimax(r, me, b, depth, alpha, beta, maximizing).1;
      m.Some? ==> m.value.pos in PossibleMoves(b, Mover(me, maximizing))
                  && r.move(b, m.value.pos, m.value.dir, Mover(me, maximizing)).Some?
  {
    if depth > 0 && r.winner(b) < 0 {
      var n := Explore(r, me, b, depth, alpha, beta, maximizing);
      NodeSelectsFirstBest(r, me, b, depth, alpha, beta, maximizing);
      if n.move.Some? {
        var k :| FirstReaching(n.explored, k, n.best) && n.explored[k].move == n.move.value;
        assert TrialSound(r, me, b, depth, maximizing, n.explored[k]);
      }
    }
  }

  // ---------------------------------------------------------------------------
  // The root call of the agent: bounds -inf and +inf, maximising

  /** At the root, the value is at least the `StateValue` of every legal child
      that is terminal (a win, a loss, or the depth limit). */
  lemma RootCoversTerminalChildren(r: Rules, me: Player, b: Board, depth: nat, p: Pos, d: Dir)
    requires depth > 0 && r.winner(b) < 0
    requires p in PossibleMoves(b, me) && d in PossibleSlides
    requires r.move(b, p, d, me).Some? && IsTerminalChild(r, r.move(b, p, d, me).value, depth)
    ensures Minimax(r, me, b, depth, NegInf, PosInf, true).0 >= StateValue(r, me, r.move(b, p, d, me).value)
  {
    NodeDominatesTerminalChildren(r, me, b, depth, NegInf, PosInf, true, p, d);
    NodeBoundsOnlyTighten(r, me, b, depth, NegInf, PosInf, true);
  }

  /** When one legal move of the agent wins at once, the root search at any
      depth returns a winning value and some move. The move need not be the
      winning one: ties keep the first move found, and an earlier move can
      reach the same value deeper in the search. */
  lemma RootTakesImmediateWin(r: Rules, me: Player, b: Board, depth: nat, p: Pos, d: Dir)
    requires depth > 0 && r.winner(b) < 0
    requires p in PossibleMoves(b, me) && d in PossibleSlides
    requires r.move(b, p, d, me).Some? && r.winner(r.move(b, p, d, me).value) == me
    ensures Minimax(r, me, b, depth, NegInf, PosInf, true).0 >= WinScore
    ensures Minimax(r, me, b, depth, NegInf, PosInf, true).1.Some?
  {
    RootCoversTerminalChildren(r, me, b, depth, p, d);
    NodeSelectsFirstBest(r, me, b, depth, NegInf, PosInf, true);
  }

  /** At depth 2 or more, the root search returns a move after which the
      opponent has a winning reply only when the root's value is a loss: the
      agent walks into an immediate defeat only when nothing it can do scores
      better. */
  lemma RootAvoidsImmediateLoss(r: Rules, me: Player, b: Board, depth: nat, p: Pos, d: Dir, q: Pos, e: Dir)
    requires depth >= 2 && r.winner(b) < 0
    requires Minimax(r, me, b, depth, NegInf, PosInf, true).1 == Some(Move(p, d))
    requires r.move(b, p, d, me).Some? && r.winner(r.move(b, p, d, me).value) < 0
    requires q in PossibleMoves(r.move(b, p, d, me).value, Opponent(me))
    requires r.move(r.move(b, p, d, me).value, q, e, Opponent(me)).Some?
    requires r.winner(r.move(r.move(b, p, d, me).value, q, e, Opponent(me)).value) == Opponent(me)
    ensures Minimax(r, me, b, depth, NegInf, PosInf, true).0 <= LossScore
  {
    var n := Explore(r, me, b, depth, NegInf, PosInf, true);
    assert Minimax(r, me, b, depth, NegInf, PosInf, true) == (n.best, n.move);
    NodeSelectsFirstBest(r, me, b, depth, NegInf, PosInf, true);
    NodeAlphaFromEarlierTrials(r, me, b, depth, NegInf, PosInf, true);
    var k :| FirstReaching(n.explored, k, n.best) && n.explored[k].move == Move(p, d);
    var t := n.explored[k];
    assert TrialSound(r, me, b, depth, true, t);
    // The chosen trial's child search was entered with an alpha below its value.
    assert t.alpha < t.eval by {
      if t.alpha != NegInf {
        var j :| 0 <= j < k && t.alpha == n.explored[j].eval;
        assert n.explored[j] in n.explored;
      }
    }
    var c := r.move(b, p, d, me).value;
    var cn := Explore(r, me, c, depth - 1, t.alpha, t.beta, false);
    assert t.eval == cn.best;
    // So the child's minimising node was not cut off, and it saw the winning reply.
    NodeBoundsOnlyTighten(r, me, c, depth - 1, t.alpha, t.beta, false);
    UncutNodeTriesEveryLegalMove(r, me, c, depth - 1, t.alpha, t.beta, false, q, e);
    NodeSelectsFirstBest(r, me, c, depth - 1, t.alpha, t.beta, false);
    var u :| u in cn.explored && u.move == Move(q, e) && cn.best <= u.eval;
    assert TrialSound(r, me, c, depth - 1, false, u);
  }

  /** A depth-1 root search is a greedy one-ply lookahead: its value is the
      largest `StateValue` among the agent's legal children, and its move leads
      to a child with that value. */
  lemma DepthOneIsGreedy(r: Rules, me: Player, b: Board)
    requires r.winner(b) < 0
    ensures forall p, d :: p in PossibleMoves(b, me) && d in PossibleSlides && r.move(b, p, d, me).Some? ==>
              Minimax(r, me, b, 1, NegInf, PosInf, true).0 >= StateValue(r, me, r.move(b, p, d, me).value)
    ensures var m := Minimax(r, me, b, 1, NegInf, PosInf, true).1;
      m.Some? ==> m.value.pos in PossibleMoves(b, me) && r.move(b, m.value.pos, m.value.dir, me).Some?
                  && Minimax(r, me, b, 1, NegInf, PosInf, true).0 == StateValue(r, me, r.move(b, m.value.pos, m.value.dir, me).value)
  {
    var n := Explore(r, me, b, 1, NegInf, PosInf, true);
    assert Minimax(r, me, b, 1, NegInf, PosInf, true) == (n.best, n.move);
    NodeSelectsFirstBest(r, me, b, 1, NegInf, PosInf, true);
    forall p, d | p in PossibleMoves(b, me) && d in PossibleSlides && r.move(b, p, d, me).Some?
      ensures n.best >= StateValue(r, me, r.move(b, p, d, me).value)
    {
      RootCoversTerminalChildren(r, me, b, 1, p, d);
    }
    if n.move.Some? {
      var k :| FirstReaching(n.explored, k, n.best) && n.explored[k].move == n.move.value;
      assert TrialSound(r, me, b, 1, true, n.explored[k]);
    }
  }

  /** A depth-1 root search returns no move exactly when the agent has no legal
      move. */
  lemma DepthOneMovesWhenItCan(r: Rules, me: Player, b: Board)
    requires r.winner(b) < 0
    ensures Minimax(r, me, b, 1, NegInf, PosInf, true).1.None?
      <==> forall p, d :: p in PossibleMoves(b, me) && d in PossibleSlides ==> r.move(b, p, d, me).None?
  {
    var n := Explore(r, me, b, 1, NegInf, PosInf, true);
    assert Minimax(r, me, b, 1, NegInf, PosInf, true) == (n.best, n.move);
    DepthOneIsGreedy(r, me, b);
    NodeSelectsFirstBest(r, me, b, 1, NegInf, PosInf, true);
    if n.move.Some? {
      EverySlideIsTried(n.move.value.dir);
    }
  }
}
