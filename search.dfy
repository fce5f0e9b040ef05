/**
 * The search layer (eval.c:11-68): the material score of a node, the
 * depth-limited best score that grows and then prunes the tree, and the
 * choice of the best child at the root.
 */
module Search {
  import opened BaoTypes
  import opened MoveGen
  import opened GameTree

  /** Seeds in the 16 play holes of the player to move; the store is not
      counted. */
  function Material(s: BaoState): (m: nat)
    ensures m <= Total(s.board)
  {
    var row := s.board[Idx(s.player)];
    SumPrefix(row, STORE);
    Sum(row[..STORE])
  }

  /** The material is the mover's whole side less the store. */
  lemma MaterialExcludesStore(s: BaoState)
    ensures Material(s) + Store(s, s.player) == Sum(s.board[Idx(s.player)])
  {
    var row := s.board[Idx(s.player)];
    assert row == row[..STORE] + [row[STORE]];
    SumAppend(row[..STORE], [row[STORE]]);
    assert [row[STORE]][..0] == [];
  }

  /** eval_branch: 0 for a node without children (whoever is to move there
      has no move); otherwise the mover's material, from the point of view
      of `p`. */
  function EvalBranch(t: Tree, p: Player): (score: int)
    ensures t.children == [] ==> score == 0
    ensures p == t.state.player ==> 0 <= score
    ensures p != t.state.player ==> score <= 0
    ensures -(Total(t.state.board) as int) <= score <= Total(t.state.board)
  {
    if t.children == [] then 0
    else if p != t.state.player then -(Material(t.state) as int)
    else Material(t.state)
  }

  /** The two players see the same node with opposite scores. */
  lemma EvalAntisymmetric(t: Tree, p: Player)
    ensures EvalBranch(t, p) == -EvalBranch(t, Opponent(p))
  {
  }

  /** The score of a node with children is the seeds on the mover's side of
      the board less the mover's store, positive for the mover and negative
      for the opponent. */
  lemma EvalBranchValue(t: Tree, p: Player)
    requires t.children != []
    ensures var side := Sum(t.state.board[Idx(t.state.player)]) - Store(t.state, t.state.player);
      EvalBranch(t, p) == if p == t.state.player then side else -side
  {
    MaterialExcludesStore(t.state);
  }

  /** How the search expands a node: grow_tree under the given rules. The
      scoring functions below take the expansion as a parameter, so what
      they promise holds for any way of producing a node's children. */
  function Growth(r: Rules): Tree -> Tree
  {
    t => Grown(t, r)
  }

  /** `grow` expands every node exactly as grow_tree does under `r`. The
      methods below are stated for any such `grow`, so their proofs see
      the expansion only through this link. */
  ghost predicate IsGrowth(grow: Tree -> Tree, r: Rules)
  {
    forall t {:trigger Grown(t, r)} :: grow(t) == Grown(t, r)
  }

  /** grow_tree's own expansion is one. */
  lemma GrowthIsGrowth(r: Rules)
    ensures IsGrowth(Growth(r), r)
  {
    forall t ensures Growth(r)(t) == Grown(t, r) {
    }
  }

  /** get_best_score as a function: at depth 0 the expanded node's material
      score; deeper, the best of 0 and the children's scores one level down. */
  function BestScore(p: Player, t: Tree, grow: Tree -> Tree, depth: nat): int
    decreases depth, 1
  {
    if depth == 0 then EvalBranch(grow(t), p)
    else BestOf(p, grow(t).children, grow, depth - 1)
  }

  /** The best of 0 and the scores of a run of sibling nodes at `depth`,
      taken from the first sibling to the last as get_best_score's loop
      does. */
  function BestOf(p: Player, cs: seq<Tree>, grow: Tree -> Tree, depth: nat): int
    decreases depth + 1, 0, |cs|
  {
    if cs == [] then 0
    else
      var front := BestOf(p, cs[..|cs| - 1], grow, depth);
      var last := BestScore(p, cs[|cs| - 1], grow, depth);
      if last > front then last else front
  }

  /** The best of a run of siblings is never negative, is at least each
      sibling's score and, unless it is 0, is one of them. */
  lemma {:induction false} BestOfIsMax(p: Player, cs: seq<Tree>, grow: Tree -> Tree, depth: nat)
    ensures 0 <= BestOf(p, cs, grow, depth)
    ensures forall i :: 0 <= i < |cs| ==> BestScore(p, cs[i], grow, depth) <= BestOf(p, cs, grow, depth)
    ensures BestOf(p, cs, grow, depth) == 0
      || exists i :: 0 <= i < |cs| && BestScore(p, cs[i], grow, depth) == BestOf(p, cs, grow, depth)
    decreases |cs|
  {
    if cs != [] {
      var front := cs[..|cs| - 1];
      BestOfIsMax(p, front, grow, depth);
      assert forall i :: 0 <= i < |front| ==> front[i] == cs[i];
    }
  }

  /** Below the root the best score is never negative, is at least every
      child's score one level down and, unless it is 0, is one of them. */
  lemma BestScoreIsBestChild(p: Player, t: Tree, grow: Tree -> Tree, depth: nat)
    requires depth > 0
    ensures 0 <= BestScore(p, t, grow, depth)
    ensures forall i :: 0 <= i < |grow(t).children| ==>
      BestScore(p, grow(t).children[i], grow, depth - 1) <= BestScore(p, t, grow, depth)
    ensures BestScore(p, t, grow, depth) == 0
      || exists i :: 0 <= i < |grow(t).children| && BestScore(p, grow(t).children[i], grow, depth - 1) == BestScore(p, t, grow, depth)
  {
    BestOfIsMax(p, grow(t).children, grow, depth - 1);
  }

  /** The node get_best_score leaves behind: grown, and at depth above 0
      with every child freed. */
  function Pruned(t: Tree, grow: Tree -> Tree, depth: nat): (t': Tree)
    ensures t'.move == grow(t).move && t'.state == grow(t).state
    ensures depth > 0 ==> t'.children == []
  {
    if depth == 0 then grow(t) else grow(t).(children := [])
  }

  /** grow_tree, seen through the expansion `grow`. */
  method Expand(node: Tree, r: Rules, ghost grow: Tree -> Tree) returns (g: Tree)
    requires IsGrowth(grow, r)
    ensures g == grow(node) && g.move == node.move
  {
    var n;
    n, g := GrowTree(node, r);
  }

  /** get_best_score: grows the node; at depth 0 scores it, otherwise scores
      each child one level down, keeps the best (starting from 0) and frees
      the children. */
  method GetBestScore(p: Player, node: Tree, r: Rules, depth: nat, ghost grow: Tree -> Tree) returns (score: int, node': Tree)
    requires IsGrowth(grow, r)
    ensures score == BestScore(p, node, grow, depth)
    ensures node' == Pruned(node, grow, depth)
    decreases depth, 1
  {
    var g := Expand(node, r, grow);
    if depth == 0 {
      return EvalBranch(g, p), g;
    }
    score := ScoreChildren(p, g.children, r, depth - 1, grow);
    node' := g.(children := []);
  }

  /** The loop of get_best_score over a node's children: each child is
      scored at `depth` (and then dropped), keeping the best from 0. */
  method ScoreChildren(p: Player, cs: seq<Tree>, r: Rules, depth: nat, ghost grow: Tree -> Tree) returns (best: int)
    requires IsGrowth(grow, r)
    ensures best == BestOf(p, cs, grow, depth)
    decreases depth + 1, 0
  {
    best := 0;
    var i := 0;
    while i < |cs|
      invariant 0 <= i <= |cs|
      invariant best == BestOf(p, cs[..i], grow, depth)
    {
      var sc, _ := GetBestScore(p, cs[i], r, depth, grow);
      assert cs[..i + 1][..i] == cs[..i];
      if sc > best {
        best := sc;
      }
      i := i + 1;
    }
    assert cs[..|cs|] == cs;
  }

  /** The tie-break of best_branch as written: `(rand() * 10) % 2` decides
      whether the earlier index is kept. The product is computed in 32-bit
      signed arithmetic (wrapping) and `%` truncates toward zero. */
  function KeepsEarlierAsWritten(roll: nat): bool
    requires roll <= RAND_MAX
  {
    TruncRem(Wrap32(roll * 10), 2) != 0
  }

  /** Largest value of the C library's rand() on the platforms in view. */
  const RAND_MAX: nat := 0x7FFF_FFFF

  /** A 32-bit two's complement wrap of a mathematical integer. */
  function Wrap32(v: int): (w: int)
    ensures -0x8000_0000 <= w < 0x8000_0000
    ensures (w - v) % 0x1_0000_0000 == 0
  {
    (v + 0x8000_0000) % 0x1_0000_0000 - 0x8000_0000
  }

  /** C's `%`: the remainder of division truncated toward zero. It is
      smaller than the divisor in magnitude, takes the sign of the dividend,
      and differs from the dividend by a multiple of the divisor. */
  function TruncRem(a: int, b: int): (q: int)
    requires b > 0
    ensures -b < q < b
    ensures a >= 0 ==> q >= 0
    ensures a < 0 ==> q <= 0
    ensures exists k :: a - q == b * k
  {
    if a >= 0 then
      assert a - a % b == b * (a / b);
      a % b
    else
      assert a + (-a) % b == b * -((-a) / b);
      -((-a) % b)
  }

  /** The written tie-break never keeps the earlier index: any value times
      ten is even, wrapping by 2^32 keeps it even, and an even number leaves
      no remainder by 2. */
  lemma AsWrittenAlwaysTakesLater(roll: nat)
    requires roll <= RAND_MAX
    ensures !KeepsEarlierAsWritten(roll)
  {
    var v := roll * 10;
    var w := Wrap32(v);
    var k := (w - v) / 0x1_0000_0000;
    assert w == v + 0x1_0000_0000 * k;
    assert w == 2 * (roll * 5 + 0x8000_0000 * k);
    EvenRem(roll * 5 + 0x8000_0000 * k);
  }

  lemma EvenRem(x: int)
    ensures TruncRem(2 * x, 2) == 0
  {
    if x < 0 {
      assert -(2 * x) == 2 * (-x);
    }
  }

  /** The evident intent: a coin flip on rand()'s parity. */
  function KeepsEarlier(roll: nat): bool
  {
    roll % 2 != 0
  }

  /** The intended tie-break can go either way. */
  lemma TieBreakGoesBothWays()
    ensures KeepsEarlier(1) && !KeepsEarlier(0)
  {
  }

  /** The score best_branch gives child `j` of the grown node `g`: its best
      score for the player to move at `g`. */
  function Score(g: Tree, grow: Tree -> Tree, depth: nat, j: int): int
    requires 0 <= j < |g.children|
  {
    BestScore(g.state.player, g.children[j], grow, depth)
  }

  /** best_branch: grows the node and scores each child for the player to
      move. It returns -1 when no score beats -1000, otherwise the index of
      a child with the highest score. On a tie, `roll(i)` stands for the
      rand() value drawn at child `i`, which decides whether the earlier
      index is kept. Each child is left as get_best_score leaves it. */
  method BestBranch(node: Tree, r: Rules, depth: nat, roll: nat -> nat, ghost grow: Tree -> Tree) returns (path: int, node': Tree)
    requires IsGrowth(grow, r)
    ensures -1 <= path < |grow(node).children|
    ensures path == -1 ==> forall j :: 0 <= j < |grow(node).children| ==> Score(grow(node), grow, depth, j) <= -1000
    ensures path >= 0 ==> -1000 <= Score(grow(node), grow, depth, path)
    ensures path >= 0 ==> forall j :: 0 <= j < |grow(node).children| ==> Score(grow(node), grow, depth, j) <= Score(grow(node), grow, depth, path)
    ensures node'.move == node.move && node'.state == grow(node).state
    ensures |node'.children| == |grow(node).children|
    ensures forall j :: 0 <= j < |node'.children| ==> node'.children[j] == Pruned(grow(node).children[j], grow, depth)
  {
    var g := Expand(node, r, grow);
    var children;
    path, children := PickBest(g, r, depth, roll, grow);
    node' := g.(children := children);
  }

  /** The loop of best_branch over the children of the grown node `g`. */
  method PickBest(g: Tree, r: Rules, depth: nat, roll: nat -> nat, ghost grow: Tree -> Tree) returns (path: int, children: seq<Tree>)
    requires IsGrowth(grow, r)
    ensures -1 <= path < |g.children|
    ensures path == -1 ==> forall j :: 0 <= j < |g.children| ==> Score(g, grow, depth, j) <= -1000
    ensures path >= 0 ==> -1000 <= Score(g, grow, depth, path)
    ensures path >= 0 ==> forall j :: 0 <= j < |g.children| ==> Score(g, grow, depth, j) <= Score(g, grow, depth, path)
    ensures |children| == |g.children|
    ensures forall j :: 0 <= j < |children| ==> children[j] == Pruned(g.children[j], grow, depth)
  {
    var bestPath := -1;
    var maxScore := -1000;
    children := g.children;
    var i := 0;
    while i < |g.children|
      invariant 0 <= i <= |g.children| && |children| == |g.children|
      invariant forall j :: 0 <= j < i ==> children[j] == Pruned(g.children[j], grow, depth)
      invariant forall j :: i <= j < |children| ==> children[j] == g.children[j]
      invariant -1 <= bestPath < i && -1000 <= maxScore
      invariant forall j :: 0 <= j < i ==> Score(g, grow, depth, j) <= maxScore
      invariant bestPath == -1 ==> maxScore == -1000
      invariant bestPath >= 0 ==> Score(g, grow, depth, bestPath) == maxScore
    {
      var score, child := GetBestScore(g.state.player, children[i], r, depth, grow);
      children := children[i := child];
      if score == maxScore {
        bestPath := if KeepsEarlier(roll(i)) then bestPath else i;
      } else if score > maxScore {
        maxScore := score;
        bestPath := i;
      }
      i := i + 1;
    }
    path := bestPath;
  }

  /** Below the root every score is at least 0, so whenever the grown node
      has a child best_branch picks one. */
  lemma BestBranchFindsChild(g: Tree, grow: Tree -> Tree, depth: nat, path: int)
    requires depth > 0 && |g.children| > 0 && -1 <= path < |g.children|
    requires path == -1 ==> forall j :: 0 <= j < |g.children| ==> Score(g, grow, depth, j) <= -1000
    ensures path >= 0
  {
    BestScoreIsBestChild(g.state.player, g.children[0], grow, depth);
    assert Score(g, grow, depth, 0) >= 0;
  }
}
