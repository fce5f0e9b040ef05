/**
 * The game tree (BaoTree.c:315-387, 505-666): node duplication, the turn
 * hand-over (`prep_state` with the mtaji moja trap probe), the root, tree
 * growth by running every candidate move to completion, child lookup and the
 * cursor moves `shift_tree` / `unshift_tree`.
 *
 * Nodes are values: a node holds its move, its state and its children, and
 * the operations that update a node in place in the source return the
 * updated node. A cursor into a tree is the path of child indices from the
 * root.
 */
module GameTree {
  import opened BaoTypes
  import opened MoveGen
  import opened Executor

  /** `struct BaoTree` without the parent pointer; `nchildren` is
      `|children|`. */
  datatype Tree = Tree(move: Move, state: BaoState, children: seq<Tree>)

  datatype Option<T> = None | Some(value: T)

  /** dup_node: a new node with the same move and state and no children. */
  function DupNode(t: Tree): (d: Tree)
    ensures d.move == t.move && d.state == t.state && d.children == []
  {
    Tree(t.move, t.state, [])
  }

  /** The hole of a buffered move; the root's move names the store. */
  function HoleOf(m: Move): Hole
  {
    if m.Move? then m.hole else STORE
  }

  /** get_mtaji_moja_trap as a function: the hole shared by every mtaji
      capture move in a buffer of MAXTRANS, or NO_TRAP when there is none or
      they start from different holes. */
  function MojaTrap(s: BaoState, r: Rules): Hole
  {
    CommonHole(Bak(MtajiCapture, s, r, LF_KICHWA, LB_KICHWA, MAXTRANS))
  }

  /** The hole every move of `ms` starts from, or NO_TRAP when `ms` is empty
      or two of its moves start from different holes. */
  function CommonHole(ms: seq<Move>): Hole
  {
    if ms == [] then NO_TRAP
    else if forall i :: 0 <= i < |ms| ==> HoleOf(ms[i]) == HoleOf(ms[0]) then HoleOf(ms[0])
    else NO_TRAP
  }

  /** A strictly ascending run of moves with keys in lo..hi-1 has at most
      hi - lo elements. */
  lemma {:induction false} AscendingBound(ms: seq<Move>, lo: int, hi: int)
    requires lo <= hi && Ascending(ms)
    requires forall i :: 0 <= i < |ms| ==> ms[i].Move? && lo <= Key(ms[i]) < hi
    ensures |ms| <= hi - lo
    decreases |ms|
  {
    if ms != [] {
      assert forall i :: 0 <= i < |ms[1..]| ==> ms[1..][i] == ms[i + 1];
      AscendingBound(ms[1..], Key(ms[0]) + 1, hi);
    }
  }

  /** Mtaji captures start from the front row only, so there are at most 16
      of them and a buffer of MAXTRANS holds them all. */
  lemma MtajiCapturesFit(s: BaoState, r: Rules)
    ensures Bak(MtajiCapture, s, r, LF_KICHWA, LB_KICHWA, MAXTRANS)
         == Scan(MtajiCapture, s, r, LF_KICHWA, LB_KICHWA)
  {
    var ms := Scan(MtajiCapture, s, r, LF_KICHWA, LB_KICHWA);
    ScanSound(MtajiCapture, s, r, LF_KICHWA, LB_KICHWA);
    forall i | 0 <= i < |ms|
      ensures ms[i].Move? && 0 <= Key(ms[i]) < 2 * (RF_KICHWA + 1)
    {
      assert TestMtajiCapture(s, r, ms[i].hole, ms[i].dir);
    }
    AscendingBound(ms, 0, 2 * (RF_KICHWA + 1));
  }

  /** A trap is a front-row hole with a mtaji capture move, and every mtaji
      capture move starts from it. */
  lemma MojaTrapSound(s: BaoState, r: Rules)
    requires MojaTrap(s, r) != NO_TRAP
    ensures InCaptureRange(MojaTrap(s, r))
    ensures exists d :: TestMtajiCapture(s, r, MojaTrap(s, r), d)
    ensures forall h, d :: 0 <= h < NHOLES && TestMtajiCapture(s, r, h, d) ==> h == MojaTrap(s, r)
  {
    var ms := Scan(MtajiCapture, s, r, LF_KICHWA, LB_KICHWA);
    MtajiCapturesFit(s, r);
    ScanSound(MtajiCapture, s, r, LF_KICHWA, LB_KICHWA);
    assert ms != [] && forall i :: 0 <= i < |ms| ==> HoleOf(ms[i]) == HoleOf(ms[0]);
    assert TestMove(MtajiCapture, s, r, ms[0].hole, ms[0].dir);
    forall h, d | 0 <= h < NHOLES && TestMtajiCapture(s, r, h, d)
      ensures h == ms[0].hole
    {
      ScanComplete(MtajiCapture, s, r, LF_KICHWA, LB_KICHWA, h, d);
      var k :| 0 <= k < |ms| && ms[k] == Move(h, d, false);
      assert HoleOf(ms[k]) == HoleOf(ms[0]);
    }
  }

  /** Without a trap there is either no mtaji capture move at all or two
      that start from different holes. */
  lemma MojaTrapNone(s: BaoState, r: Rules)
    requires MojaTrap(s, r) == NO_TRAP
    ensures (forall h, d :: 0 <= h < NHOLES ==> !TestMtajiCapture(s, r, h, d))
      || exists h1, d1, h2, d2 :: 0 <= h1 < NHOLES && 0 <= h2 < NHOLES && h1 != h2
           && TestMtajiCapture(s, r, h1, d1) && TestMtajiCapture(s, r, h2, d2)
  {
    var ms := Scan(MtajiCapture, s, r, LF_KICHWA, LB_KICHWA);
    MtajiCapturesFit(s, r);
    ScanSound(MtajiCapture, s, r, LF_KICHWA, LB_KICHWA);
    if ms == [] {
      forall h, d | 0 <= h < NHOLES
        ensures !TestMtajiCapture(s, r, h, d)
      {
        if TestMtajiCapture(s, r, h, d) {
          ScanComplete(MtajiCapture, s, r, LF_KICHWA, LB_KICHWA, h, d);
        }
      }
    } else {
      assert TestMove(MtajiCapture, s, r, ms[0].hole, ms[0].dir);
      var k :| 0 <= k < |ms| && HoleOf(ms[k]) != HoleOf(ms[0]);
      assert TestMove(MtajiCapture, s, r, ms[k].hole, ms[k].dir);
    }
  }

  /** get_mtaji_moja_trap: scans the mtaji capture moves into a buffer and
      checks whether they all start from the first one's hole. */
  method GetMtajiMojaTrap(s: BaoState, r: Rules) returns (t: Hole)
    ensures t == MojaTrap(s, r)
  {
    var buf := new Move[MAXTRANS];
    var nmoves := GetMovesBak(buf, MAXTRANS, s, r, LF_KICHWA, LB_KICHWA, MtajiCapture);
    t := SharedHole(buf, nmoves);
  }

  /** The loop of get_mtaji_moja_trap: compares each buffered move's hole
      with the first one's. */
  method SharedHole(buf: array<Move>, nmoves: nat) returns (t: Hole)
    requires nmoves <= buf.Length
    ensures t == CommonHole(buf[..nmoves])
  {
    if nmoves == 0 {
      return NO_TRAP;
    }
    var i := 1;
    while i < nmoves
      invariant 1 <= i <= nmoves
      invariant forall j :: 0 <= j < i ==> HoleOf(buf[j]) == HoleOf(buf[0])
    {
      if HoleOf(buf[0]) != HoleOf(buf[i]) {
        assert buf[..nmoves][i] == buf[i];
        return NO_TRAP;
      }
      i := i + 1;
    }
    assert forall j :: 0 <= j < nmoves ==> buf[..nmoves][j] == buf[j];
    return HoleOf(buf[0]);
  }

  /** prep_state as a function: the state handed to the opponent. */
  function Prepared(s: BaoState, r: Rules): (s': BaoState)
    ensures !s'.takata && s'.player == Opponent(s.player)
    ensures s'.board == s.board && s'.nyumba == s.nyumba && s'.flagsPlayer == s.flagsPlayer
    ensures InMtaji(s, s.player) && s.takata && r.hasMtajiMojaTrap ==> s'.trappedHole == MojaTrap(s, r)
    ensures !(InMtaji(s, s.player) && s.takata && r.hasMtajiMojaTrap) ==> s'.trappedHole == NO_TRAP
  {
    var t := if InMtaji(s, s.player) && s.takata && r.hasMtajiMojaTrap then MojaTrap(s, r) else NO_TRAP;
    s.(trappedHole := t, takata := false, player := Opponent(s.player))
  }

  /** prep_state: records the mtaji moja trap when the mover ended a mtaji
      sowing turn under the trap rule, clears `takata` and passes the turn. */
  method PrepState(s: BaoState, r: Rules) returns (s': BaoState)
    ensures s' == Prepared(s, r)
  {
    s' := s;
    if InMtaji(s', s'.player) && s'.takata && r.hasMtajiMojaTrap {
      var t := GetMtajiMojaTrap(s', r);
      s' := s'.(trappedHole := t);
    } else {
      s' := s'.(trappedHole := NO_TRAP);
    }
    s' := s'.(takata := false);
    s' := s'.(player := Opponent(s'.player));
  }

  /** update_node: hands the node's state over to the opponent and records
      the move that led to it. */
  method UpdateNode(node: Tree, m: Move, r: Rules, nyumbaSown: bool) returns (node': Tree)
    requires m.Move?
    ensures node' == Tree(Move(m.hole, m.dir, nyumbaSown), Prepared(node.state, r), node.children)
  {
    var s := PrepState(node.state, r);
    node' := Tree(Move(m.hole, m.dir, nyumbaSown), s, node.children);
  }

  /** new_tree: the root. Both sides get the rule's seed layout, both nyumba
      flags the rule's setting; no takata, no trap, South to move. The
      source never initialises the `flags` byte, so its player bit is a
      parameter here. */
  method NewTree(r: Rules, flagsPlayer: Player) returns (top: Tree)
    ensures top.move == NoMove && top.children == []
    ensures forall p: Player, h :: 0 <= h < NHOLES ==> Count(top.state.board, p, h) == r.boardSetting[h]
    ensures forall p: Player :: Nyumba(top.state, p) == r.hasNyumba
    ensures !top.state.takata && top.state.trappedHole == NO_TRAP && top.state.player == South
    ensures top.state.flagsPlayer == flagsPlayer
  {
    var north: seq<nat> := [];
    var south: seq<nat> := [];
    var h := LF_KICHWA;
    while h <= STORE
      invariant 0 <= h <= NHOLES && |north| == h && |south| == h
      invariant forall k :: 0 <= k < h ==> north[k] == r.boardSetting[k] && south[k] == r.boardSetting[k]
    {
      north := north + [r.boardSetting[h]];
      south := south + [r.boardSetting[h]];
      h := h + 1;
    }
    var s := BaoState([north, south], flagsPlayer, false, [r.hasNyumba, r.hasNyumba], NO_TRAP, South);
    top := Tree(NoMove, s, []);
  }

  /** The root holds twice the layout's seeds and both sides start in the
      same stage. */
  lemma NewTreeSeeds(top: Tree, r: Rules)
    requires forall p: Player, h :: 0 <= h < NHOLES ==> Count(top.state.board, p, h) == r.boardSetting[h]
    ensures Total(top.state.board) == 2 * Sum(r.boardSetting)
    ensures InNamua(top.state, North) == InNamua(top.state, South) == (r.boardSetting[STORE] != 0)
  {
    assert top.state.board[0] == r.boardSetting by {
      forall h | 0 <= h < NHOLES ensures top.state.board[0][h] == r.boardSetting[h] {
        assert Count(top.state.board, North, h) == r.boardSetting[h];
      }
    }
    assert top.state.board[1] == r.boardSetting by {
      forall h | 0 <= h < NHOLES ensures top.state.board[1][h] == r.boardSetting[h] {
        assert Count(top.state.board, South, h) == r.boardSetting[h];
      }
    }
  }

  /** The moves a buffer of candidates may hold: real moves off the store. */
  predicate Startable(ms: seq<Move>)
  {
    forall i :: 0 <= i < |ms| ==> ms[i].Move? && ms[i].hole < STORE
  }

  /** A node for a finished outcome: the move with its nyumba flag and the
      state handed over to the opponent. */
  function Outcome(m: Move, s: BaoState, r: Rules, nyumbaSown: bool): (t: Tree)
    requires m.Move?
    ensures t.children == [] && t.move.Move? && t.move.nyumbaSown == nyumbaSown
    ensures t.state.board == s.board && !t.state.takata && t.state.player == Opponent(s.player)
  {
    Tree(Move(m.hole, m.dir, nyumbaSown), Prepared(s, r), [])
  }

  /** The children one candidate contributes in grow_tree: none when it runs
      out of budget; when it halts on the nyumba, first the paused outcome
      (flagged `nyumbaSown`) and then, if the resumed move finishes, the
      completed one. */
  function ChildrenOf(s: BaoState, r: Rules, m: Move): (cs: seq<Tree>)
    requires m.Move? && m.hole < STORE
    ensures |cs| <= 2
    ensures forall i :: 0 <= i < |cs| ==>
      cs[i].children == [] && cs[i].move.Move? && cs[i].move.hole == m.hole && cs[i].move.dir == m.dir
      && cs[i].state.player == Opponent(s.player) && !cs[i].state.takata
    ensures |cs| == 2 ==> cs[0].move.nyumbaSown && !cs[1].move.nyumbaSown
  {
    var e := Exec(Started(s, r, m), r, r.maxMoveExecDepth);
    if e.status == Halted then
      var paused := Outcome(m, e.cfg.state, r, true);
      var e2 := Exec(ContinueCfg(e.cfg), r, r.maxMoveExecDepth);
      if e2.status == NotDone then [paused] else [paused, Outcome(m, e2.cfg.state, r, false)]
    else if e.status == NotDone then []
    else [Outcome(m, e.cfg.state, r, false)]
  }

  /** A candidate that exhausts the step budget is dropped; one that finishes
      directly yields exactly one unflagged child. One that halts yields the
      flagged paused outcome, and then the resumed hand never halts again: it
      adds the unflagged finished outcome when it finishes and nothing when it
      exhausts the budget. */
  lemma ChildrenOfCases(s: BaoState, r: Rules, m: Move)
    requires m.Move? && m.hole < STORE
    ensures var e := Exec(Started(s, r, m), r, r.maxMoveExecDepth);
      var cs := ChildrenOf(s, r, m);
      (e.status == NotDone ==> cs == [])
      && (e.status == Done ==>
            |cs| == 1 && !cs[0].move.nyumbaSown && cs[0].state == Prepared(e.cfg.state, r))
      && (e.status == Halted ==>
            1 <= |cs| && cs[0].move.nyumbaSown && cs[0].state == Prepared(e.cfg.state, r))
    ensures var e := Exec(Started(s, r, m), r, r.maxMoveExecDepth);
      var e2 := Exec(ContinueCfg(e.cfg), r, r.maxMoveExecDepth);
      var cs := ChildrenOf(s, r, m);
      e.status == Halted ==>
        e2.status != Halted
        && (e2.status == NotDone ==> cs == [Outcome(m, e.cfg.state, r, true)])
        && (e2.status == Done ==>
              cs == [Outcome(m, e.cfg.state, r, true), Outcome(m, e2.cfg.state, r, false)])
  {
    var e := Exec(Started(s, r, m), r, r.maxMoveExecDepth);
    if e.status == Halted {
      NoHaltAfterContinue(e.cfg, r, r.maxMoveExecDepth);
    }
  }

  /** Every child of a candidate holds as many seeds as the parent, unless
      the nyumba special wraps the store. */
  lemma ChildrenConserve(s: BaoState, r: Rules, m: Move)
    requires m.Move? && m.hole < STORE
    requires SpecialFires(s, r, m) ==> Store(s, s.player) >= 2
    ensures forall c :: c in ChildrenOf(s, r, m) ==> Total(c.state.board) == Total(s.board)
  {
    var c0 := Started(s, r, m);
    StartConserves(s, r, m);
    var e := Exec(c0, r, r.maxMoveExecDepth);
    if e.status == Halted {
      var e2 := Exec(ContinueCfg(e.cfg), r, r.maxMoveExecDepth);
      assert Seeds(e2.cfg) == Seeds(e.cfg);
    }
  }

  /** The children grow_tree builds from a buffer of candidates, in order. */
  function GrownChildren(s: BaoState, r: Rules, ms: seq<Move>): (cs: seq<Tree>)
    requires Startable(ms)
    ensures |cs| <= 2 * |ms|
    decreases |ms|
  {
    if ms == [] then [] else GrownChildren(s, r, ms[..|ms| - 1]) + ChildrenOf(s, r, ms[|ms| - 1])
  }

  lemma GrownChildrenSnoc(s: BaoState, r: Rules, ms: seq<Move>, m: Move)
    requires Startable(ms) && m.Move? && m.hole < STORE
    ensures Startable(ms + [m])
    ensures GrownChildren(s, r, ms + [m]) == GrownChildren(s, r, ms) + ChildrenOf(s, r, m)
  {
    assert (ms + [m])[..|ms|] == ms;
  }

  /** The node's move has the hole and direction of one of the candidates. */
  predicate FromCandidate(ms: seq<Move>, t: Tree)
    requires Startable(ms) && t.move.Move?
  {
    exists j :: 0 <= j < |ms| && ms[j].hole == t.move.hole && ms[j].dir == t.move.dir
  }

  /** Each node of `cs` is a leaf reached by one of the candidates, with the
      turn passed on from `s` and `takata` cleared. */
  predicate ChildShape(s: BaoState, ms: seq<Move>, cs: seq<Tree>)
    requires Startable(ms)
  {
    forall i :: 0 <= i < |cs| ==>
      cs[i].children == [] && cs[i].move.Move? && cs[i].state.player == Opponent(s.player)
      && !cs[i].state.takata && FromCandidate(ms, cs[i])
  }

  /** Shapes keep holding when more candidates are allowed. */
  lemma ChildShapeWiden(s: BaoState, init: seq<Move>, ms: seq<Move>, cs: seq<Tree>)
    requires Startable(ms) && init <= ms && Startable(init) && ChildShape(s, init, cs)
    ensures ChildShape(s, ms, cs)
  {
    forall i | 0 <= i < |cs|
      ensures FromCandidate(ms, cs[i])
    {
      var j :| 0 <= j < |init| && init[j].hole == cs[i].move.hole && init[j].dir == cs[i].move.dir;
      assert ms[j] == init[j];
    }
  }

  lemma ChildShapeAppend(s: BaoState, ms: seq<Move>, a: seq<Tree>, b: seq<Tree>)
    requires Startable(ms) && ChildShape(s, ms, a) && ChildShape(s, ms, b)
    ensures ChildShape(s, ms, a + b)
  {
    forall i | 0 <= i < |a + b|
      ensures (a + b)[i] == if i < |a| then a[i] else b[i - |a|]
    {
    }
  }

  /** The children one candidate contributes have the grown shape. */
  lemma ChildrenOfShape(s: BaoState, r: Rules, ms: seq<Move>)
    requires Startable(ms) && ms != []
    ensures ChildShape(s, ms, ChildrenOf(s, r, ms[|ms| - 1]))
  {
    var m := ms[|ms| - 1];
    var cs := ChildrenOf(s, r, m);
    forall i | 0 <= i < |cs|
      ensures FromCandidate(ms, cs[i])
    {
      assert ms[|ms| - 1].hole == cs[i].move.hole && ms[|ms| - 1].dir == cs[i].move.dir;
    }
  }

  /** Every grown child is a leaf reached by one of the candidates, with the
      turn passed to the opponent and `takata` cleared. */
  lemma {:induction false} GrownChildrenShape(s: BaoState, r: Rules, ms: seq<Move>)
    requires Startable(ms)
    ensures ChildShape(s, ms, GrownChildren(s, r, ms))
    decreases |ms|
  {
    if ms != [] {
      var init := ms[..|ms| - 1];
      GrownChildrenShape(s, r, init);
      ChildShapeWiden(s, init, ms, GrownChildren(s, r, init));
      ChildrenOfShape(s, r, ms);
      ChildShapeAppend(s, ms, GrownChildren(s, r, init), ChildrenOf(s, r, ms[|ms| - 1]));
    }
  }

  /** grow_tree as a function: a node with children is returned as it is;
      otherwise get_moves updates `takata` and each candidate contributes its
      children. */
  function Grown(t: Tree, r: Rules): (g: Tree)
    ensures g.move == t.move && g.state == t.state.(takata := g.state.takata)
    ensures |t.children| > 0 ==> g == t
    ensures |t.children| == 0 ==> |g.children| <= 2 * MAXTRANS
  {
    if |t.children| > 0 then t
    else
      var e := Enumerate(t.state, r, MAXTRANS);
      var s := t.state.(takata := e.takata);
      Tree(t.move, s, GrownChildren(s, r, e.moves))
  }

  /** Growing twice is growing once. A node that gained children is returned
      as it is; one that gained none is regrown from a state whose `takata`
      the first growth already settled, and no move test reads `takata`. */
  lemma GrowIdempotent(t: Tree, r: Rules)
    ensures Grown(Grown(t, r), r) == Grown(t, r)
  {
    if |t.children| == 0 {
      EnumerateStable(t.state, r, MAXTRANS);
    }
  }

  /** All grown children are leaves with the turn passed to the opponent,
      and when the stage is mtaji no candidate halts, so each contributes at
      most one child. */
  lemma {:induction false} MtajiChildrenBound(s: BaoState, r: Rules, ms: seq<Move>)
    requires Startable(ms) && InMtaji(s, s.player)
    ensures |GrownChildren(s, r, ms)| <= |ms|
    decreases |ms|
  {
    if ms != [] {
      MtajiChildrenBound(s, r, ms[..|ms| - 1]);
      var m := ms[|ms| - 1];
      var e := Exec(Started(s, r, m), r, r.maxMoveExecDepth);
      MtajiNeverHalts(s, r, m);
    }
  }

  /** In mtaji the store is empty and no step puts seeds into it, so the
      pause on the nyumba never happens. */
  lemma MtajiNeverHalts(s: BaoState, r: Rules, m: Move)
    requires m.Move? && m.hole < STORE && InMtaji(s, s.player)
    ensures Exec(Started(s, r, m), r, r.maxMoveExecDepth).status != Halted
  {
    var c := Started(s, r, m);
    assert Store(c.state, s.player) == 0;
    StoreStaysEmpty(c, r, r.maxMoveExecDepth);
  }

  lemma {:induction false} StoreStaysEmpty(c: HandCfg, r: Rules, steps: int)
    requires HandInv(c) && Store(c.state, c.state.player) == 0
    ensures Store(Exec(c, r, steps).cfg.state, c.state.player) == 0
    ensures Exec(c, r, steps).status != Halted
    decreases steps
  {
    if steps > 0 {
      var x := ExecStep(c, r);
      if x.Next? {
        StepKeepsStore(c, r);
        StoreStaysEmpty(x.next, r, steps - 1);
      }
    }
  }

  /** One iteration never changes a store: the hand only lifts from and sows
      into play holes. */
  lemma StepKeepsStore(c: HandCfg, r: Rules)
    requires HandInv(c) && ExecStep(c, r).Next?
    ensures forall p: Player :: Store(ExecStep(c, r).next.state, p) == Store(c.state, p)
  {
  }

  /** The body of grow_tree's loop for one candidate: run it on a copy of
      the parent; if it halts on the nyumba, record the paused outcome and
      resume; keep the completed outcome unless the budget ran out. */
  method ExpandMove(parent: Tree, m: Move, r: Rules) returns (added: seq<Tree>)
    requires m.Move? && m.hole < STORE
    ensures added == ChildrenOf(parent.state, r, m)
  {
    ghost var e := Exec(Started(parent.state, r, m), r, r.maxMoveExecDepth);
    added := [];
    var child := DupNode(parent);
    var hand := new Hand.StartMove(child.state, r, m);
    var st := hand.ExecMove(r, r.maxMoveExecDepth);
    assert hand.state == e.cfg.state && st == e.status;
    if st == Halted {
      child := child.(state := hand.state);
      var paused := UpdateNode(DupNode(child), m, r, true);
      assert paused == Outcome(m, e.cfg.state, r, true);
      added := [paused];
      hand.ContinueMove();
      ghost var e2 := Exec(ContinueCfg(e.cfg), r, r.maxMoveExecDepth);
      st := hand.ExecMove(r, r.maxMoveExecDepth);
      assert hand.state == e2.cfg.state && st == e2.status;
    }
    if st != NotDone {
      child := child.(state := hand.state);
      child := UpdateNode(child, m, r, false);
      assert child == Outcome(m, hand.state, r, false);
      added := added + [child];
    }
  }

  /** One turn of grow_tree's loop: the candidate's children follow those
      of the candidates before it. */
  method GrowStep(parent: Tree, r: Rules, ghost done: seq<Move>, children: seq<Tree>, m: Move) returns (children': seq<Tree>)
    requires Startable(done) && m.Move? && m.hole < STORE
    requires children == GrownChildren(parent.state, r, done)
    ensures Startable(done + [m])
    ensures children' == GrownChildren(parent.state, r, done + [m])
  {
    var added := ExpandMove(parent, m, r);
    children' := children + added;
    GrownChildrenSnoc(parent.state, r, done, m);
  }

  /** grow_tree: runs every candidate of get_moves to completion on a copy of
      the node, adding the paused outcome first for a move that halts on the
      nyumba and dropping candidates that exhaust the step budget. A node
      that already has children is left alone. */
  method GrowTree(t: Tree, r: Rules) returns (n: int, g: Tree)
    ensures g == Grown(t, r) && n == |g.children|
  {
    if |t.children| > 0 {
      return |t.children|, t;
    }
    var buf := new Move[MAXTRANS];
    var nmoves, s := GetMoves(buf, MAXTRANS, t.state, r);
    var parent := t.(state := s);
    assert Startable(buf[..nmoves]);
    var children := GrowChildren(parent, r, buf, nmoves);
    n := |children|;
    g := parent.(children := children);
  }

  /** The loop of grow_tree over the buffered candidates. */
  method GrowChildren(parent: Tree, r: Rules, buf: array<Move>, nmoves: nat) returns (children: seq<Tree>)
    requires nmoves <= buf.Length && Startable(buf[..nmoves])
    ensures children == GrownChildren(parent.state, r, buf[..nmoves])
  {
    children := [];
    var i := 0;
    while i < nmoves
      invariant 0 <= i <= nmoves
      invariant Startable(buf[..i]) && children == GrownChildren(parent.state, r, buf[..i])
    {
      assert buf[i] == buf[..nmoves][i];
      assert buf[..i + 1] == buf[..i] + [buf[i]];
      children := GrowStep(parent, r, buf[..i], children, buf[i]);
      i := i + 1;
    }
  }

  /** CMP_MOVE: same hole, direction and nyumba flag. */
  predicate SameMove(a: Move, b: Move)
    ensures SameMove(a, b) <==> a == b
  {
    HoleOf(a) == HoleOf(b) && a.Move? == b.Move?
    && (a.Move? ==> a.dir == b.dir && a.nyumbaSown == b.nyumbaSown)
  }

  /** find_branch: the index of the first child reached by `m`, or -1. */
  method FindBranch(t: Tree, m: Move) returns (i: int)
    ensures -1 <= i < |t.children|
    ensures i >= 0 ==> SameMove(t.children[i].move, m)
    ensures forall j :: 0 <= j < |t.children| && (i < 0 || j < i) ==> !SameMove(t.children[j].move, m)
  {
    i := 0;
    while i < |t.children|
      invariant 0 <= i <= |t.children|
      invariant forall j :: 0 <= j < i ==> !SameMove(t.children[j].move, m)
    {
      if SameMove(t.children[i].move, m) {
        return i;
      }
      i := i + 1;
    }
    return -1;
  }

  /** The node a path of child indices leads to from `root`, if any. */
  function NodeAt(root: Tree, path: seq<nat>): Option<Tree>
    decreases |path|
  {
    if path == [] then Some(root)
    else match NodeAt(root, path[..|path| - 1])
      case None => None
      case Some(n) => if path[|path| - 1] < |n.children| then Some(n.children[path[|path| - 1]]) else None
  }

  /** A cursor into a tree: a node named by its path from the root, or the
      null pointer shift_tree can produce. */
  datatype Cursor = Null | At(path: seq<nat>)

  /** shift_tree as written: the bound test is `path > nchildren`, so the
      index one past the last child is accepted and the cursor becomes the
      terminator slot, a null node. */
  function ShiftTreeAsWritten(root: Tree, path: seq<nat>, idx: nat): (res: (int, Cursor))
    requires NodeAt(root, path).Some?
    ensures res.0 == -1 <==> idx > |NodeAt(root, path).value.children|
    ensures res.0 == -1 ==> res.1 == At(path)
  {
    var n := NodeAt(root, path).value;
    if idx > |n.children| then (-1, At(path))
    else if idx == |n.children| then (0, Null)
    else (0, At(path + [idx]))
  }

  /** shift_tree with the evident bound `path >= nchildren`: moving down
      succeeds exactly for an existing child, and then lands on it. */
  function ShiftTree(root: Tree, path: seq<nat>, idx: nat): (res: (int, Cursor))
    requires NodeAt(root, path).Some?
    ensures res.0 == 0 <==> idx < |NodeAt(root, path).value.children|
    ensures res.0 == 0 ==> res.1.At? && NodeAt(root, res.1.path) == Some(NodeAt(root, path).value.children[idx])
    ensures res.0 != 0 ==> res.0 == -1 && res.1 == At(path)
  {
    var n := NodeAt(root, path).value;
    if idx >= |n.children| then (-1, At(path))
    else
      assert (path + [idx])[..|path + [idx]| - 1] == path;
      (0, At(path + [idx]))
  }

  /** The accepted out-of-range index: shift_tree reports success for the
      index equal to the number of children and leaves no node under the
      cursor. */
  lemma ShiftAsWrittenAcceptsEnd(root: Tree, path: seq<nat>)
    requires NodeAt(root, path).Some?
    ensures var n := |NodeAt(root, path).value.children|;
      ShiftTreeAsWritten(root, path, n) == (0, Null) && ShiftTree(root, path, n).0 == -1
  {
  }

  /** unshift_tree: up to the parent, or -1 at the root. The source follows
      a `parent` pointer that dup_node leaves unset; the path records the
      parent instead. */
  function UnshiftTree(path: seq<nat>): (res: (int, seq<nat>))
    ensures res.0 == -1 <==> path == []
    ensures res.0 == 0 ==> res.1 + [path[|path| - 1]] == path
    ensures res.0 == -1 ==> res.1 == path
  {
    if path == [] then (-1, path) else (0, path[..|path| - 1])
  }

  /** Moving down to a child and back up returns to the same node. */
  lemma UnshiftAfterShift(root: Tree, path: seq<nat>, idx: nat)
    requires NodeAt(root, path).Some? && ShiftTree(root, path, idx).0 == 0
    ensures UnshiftTree(ShiftTree(root, path, idx).1.path) == (0, path)
  {
    assert (path + [idx])[..|path|] == path;
  }
}
