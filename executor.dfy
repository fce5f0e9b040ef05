/**
 * Move execution (BaoTree.c:390-464, 669-762): the `Hand` cursor that lifts
 * and sows seeds, `start_move`, the `exec_move` state machine and
 * `continue_move`.
 *
 * The transitions are pure functions on `HandCfg`, a snapshot of the hand's
 * fields; the class `Hand` updates its fields in place and each of its
 * methods is proved to perform the matching transition. `Exec` is the
 * `exec_move` loop written as a recursion on the step budget.
 */
module Executor {
  import opened BaoTypes
  import opened MoveGen

  /** The fields of a `struct Hand`: the state it mutates, the side and hole
      it stands on, the seeds it holds and the sowing direction. */
  datatype HandCfg = HandCfg(state: BaoState, side: Player, hole: PlayHole, nkhomo: nat, dir: Dir)

  /** Seeds on the board plus seeds in the hand: what every step conserves. */
  function Seeds(c: HandCfg): nat
  {
    Total(c.state.board) + c.nkhomo
  }

  /** The hand stands on the opponent's side only right after a capture
      lift: on a front-row hole, holding the captured seeds. */
  predicate HandInv(c: HandCfg)
  {
    c.side != c.state.player ==> c.hole <= RF_KICHWA && c.nkhomo > 0
  }

  /** The parts of the state a move never changes. */
  predicate SameTurn(a: BaoState, b: BaoState)
  {
    a.player == b.player && a.takata == b.takata && a.trappedHole == b.trappedHole
    && a.flagsPlayer == b.flagsPlayer
  }

  /** Nyumba flags are only ever cleared during a move, never set. */
  predicate NyumbaOnlyCleared(a: BaoState, b: BaoState)
  {
    forall p: Player :: Nyumba(b, p) ==> Nyumba(a, p)
  }

  /** Hand_lift: all seeds of the current hole go into the hand. */
  function Lifted(c: HandCfg): (c': HandCfg)
    ensures Seeds(c') == Seeds(c)
    ensures Count(c'.state.board, c.side, c.hole) == 0
    ensures c'.nkhomo == c.nkhomo + Count(c.state.board, c.side, c.hole)
    ensures c'.side == c.side && c'.hole == c.hole && c'.dir == c.dir
    ensures SameTurn(c.state, c'.state) && c'.state.nyumba == c.state.nyumba
  {
    TotalSetCount(c.state.board, c.side, c.hole, 0);
    c.(nkhomo := c.nkhomo + Count(c.state.board, c.side, c.hole),
       state := c.state.(board := SetCount(c.state.board, c.side, c.hole, 0)))
  }

  /** Hand_sow: one seed from the hand into the current hole. */
  function Sown(c: HandCfg): (c': HandCfg)
    requires c.nkhomo > 0
    ensures Seeds(c') == Seeds(c)
    ensures Count(c'.state.board, c.side, c.hole) == Count(c.state.board, c.side, c.hole) + 1
    ensures c'.nkhomo + 1 == c.nkhomo
    ensures c'.side == c.side && c'.hole == c.hole && c'.dir == c.dir
    ensures SameTurn(c.state, c'.state) && c'.state.nyumba == c.state.nyumba
  {
    var n := Count(c.state.board, c.side, c.hole);
    TotalSetCount(c.state.board, c.side, c.hole, n + 1);
    c.(nkhomo := c.nkhomo - 1, state := c.state.(board := SetCount(c.state.board, c.side, c.hole, n + 1)))
  }

  /** Hand_switch_side: to the other side's mirrored hole. */
  function Switched(c: HandCfg): (c': HandCfg)
    requires c.hole <= RF_KICHWA
    ensures c'.side != c.side && c'.hole + c.hole == RF_KICHWA
    ensures c'.state == c.state && c'.nkhomo == c.nkhomo && c'.dir == c.dir
  {
    c.(side := Opponent(c.side), hole := OpposingHole(c.hole))
  }

  /** Hand_step on a single hole. Holes are unsigned in the source: going
      left from hole 0 gives a huge value, which the `> H_LBKICHWA` test
      turns into hole 15. The model writes that wrap out. */
  function NextHole(h: PlayHole, d: Dir): (h': PlayHole)
    ensures h' == (h + Delta(d)) % (LB_KICHWA + 1)
  {
    match d
    case Right => if h + 1 > LB_KICHWA then LF_KICHWA else h + 1
    case Left => if h == 0 then LB_KICHWA else h - 1
  }

  /** Hand_step: one hole on in the sowing direction, within 0..15. */
  function Stepped(c: HandCfg): (c': HandCfg)
    ensures c'.hole == (c.hole + Delta(c.dir)) % (LB_KICHWA + 1)
    ensures c' == c.(hole := c'.hole)
  {
    c.(hole := NextHole(c.hole, c.dir))
  }

  /** Hand_reset: after a capture the hand restarts sowing from a front-row
      end: kichwa for holes at the ends, otherwise the end the move's
      direction points away from. */
  function ResetCfg(c: HandCfg): (c': HandCfg)
    ensures (c'.hole == LF_KICHWA && c'.dir == Right) || (c'.hole == RF_KICHWA && c'.dir == Left)
    ensures c.hole <= LF_KIMBI ==> c'.hole == LF_KICHWA
    ensures RF_KIMBI <= c.hole ==> c'.hole == RF_KICHWA
    ensures LF_KIMBI < c.hole < RF_KIMBI ==> c'.dir == c.dir
    ensures c' == c.(hole := c'.hole, dir := c'.dir)
  {
    if c.hole <= LF_KIMBI then c.(hole := LF_KICHWA, dir := Right)
    else if c.hole >= RF_KIMBI then c.(hole := RF_KICHWA, dir := Left)
    else if c.dir == Right then c.(hole := LF_KICHWA)
    else assert c.dir == Left; c.(hole := RF_KICHWA)
  }

  /** Hand_can_lift. */
  predicate CanLift(c: HandCfg)
  {
    Count(c.state.board, c.side, c.hole) > 1
  }

  /** Hand_can_switch_side: a capture from the current front-row hole, on a
      capture turn, when it holds more than one seed and the mirrored hole
      of the other side is non-empty. */
  predicate CanSwitchSide(c: HandCfg)
  {
    !(c.hole > RF_KICHWA || c.state.takata || Count(c.state.board, c.side, c.hole) <= 1
      || Count(c.state.board, Opponent(c.side), OpposingHole(c.hole)) == 0)
  }

  /** can_play_namua_special: on a sowing turn, from the intact nyumba
      holding at least the rule's minimum. */
  predicate CanPlayNamuaSpecial(s: BaoState, r: Rules, h: int)
    requires 0 <= h < NHOLES
  {
    s.takata && h == NYUMBA && Nyumba(s, s.player)
    && Count(s.board, s.player, h) >= r.minNkhomoForNamuaSpecial
  }

  /** Whether start_move takes the nyumba special: a namua sowing turn from
      the intact nyumba, which after receiving the store seed holds at least
      the rule's minimum. */
  predicate SpecialFires(s: BaoState, r: Rules, m: Move)
    requires m.Move? && m.hole < STORE
  {
    InNamua(s, s.player) && s.takata && m.hole == NYUMBA && Nyumba(s, s.player)
    && Count(s.board, s.player, NYUMBA) + 1 >= r.minNkhomoForNamuaSpecial
  }

  /** start_move. Namua: one seed from the store into the starting hole;
      on the nyumba special one seed more leaves the nyumba and one more
      the store (a 32-bit unsigned decrement), and the hand holds two.
      Mtaji: on a capture turn any intact nyumba is cleared on both sides,
      then the starting hole is lifted. */
  function Started(s: BaoState, r: Rules, m: Move): (c: HandCfg)
    requires m.Move? && m.hole < STORE
    ensures c.side == s.player && c.hole == m.hole && c.dir == m.dir
    ensures HandInv(c) && SameTurn(s, c.state) && NyumbaOnlyCleared(s, c.state)
    ensures InMtaji(s, s.player) ==>
      c.nkhomo == Count(s.board, s.player, m.hole) && Count(c.state.board, s.player, m.hole) == 0
    ensures InNamua(s, s.player) ==> (c.nkhomo == 2 <==> SpecialFires(s, r, m))
    ensures InNamua(s, s.player) && !SpecialFires(s, r, m) ==>
      c.nkhomo == 0 && Store(c.state, s.player) + 1 == Store(s, s.player)
      && Count(c.state.board, s.player, m.hole) == Count(s.board, s.player, m.hole) + 1
  {
    var p := s.player;
    if Store(s, p) != 0 then
      var b1 := SetCount(s.board, p, STORE, Store(s, p) - 1);
      var b2 := SetCount(b1, p, m.hole, Count(b1, p, m.hole) + 1);
      var s1 := s.(board := b2);
      if CanPlayNamuaSpecial(s1, r, m.hole) then
        var b3 := SetCount(b2, p, NYUMBA, Count(b2, p, NYUMBA) - 1);
        var b4 := SetCount(b3, p, STORE, UnsignedDec(Count(b3, p, STORE)));
        HandCfg(s1.(board := b4), p, m.hole, 2, m.dir)
      else
        HandCfg(s1, p, m.hole, 0, m.dir)
    else
      var s1 := if !s.takata && (s.nyumba[0] || s.nyumba[1]) then s.(nyumba := [false, false]) else s;
      Lifted(HandCfg(s1, p, m.hole, 0, m.dir))
  }

  /** The pause point of exec_move: lifting the mover's intact nyumba on a
      capture turn while the mover's store still holds seeds. */
  predicate HaltPoint(c: HandCfg)
  {
    c.nkhomo == 0 && c.side == c.state.player && c.hole == NYUMBA && Nyumba(c.state, c.side)
    && Store(c.state, c.side) != 0 && !c.state.takata && CanLift(c)
  }

  /** The outcome of one iteration of the exec_move loop: the next hand, or
      a status the loop returns with. */
  datatype StepResult = Next(next: HandCfg) | Return(status: Status)

  /** One iteration of the exec_move loop. With an empty hand: capture
      (switch side and lift), else lift (with the nyumba and mtaji-moja
      special cases), else finish. With seeds in hand: after a capture,
      switch back, reset to a kichwa and sow there; otherwise step and sow. */
  function ExecStep(c: HandCfg, r: Rules): (x: StepResult)
    requires HandInv(c)
    ensures x.Next? ==>
      HandInv(x.next) && Seeds(x.next) == Seeds(c)
      && SameTurn(c.state, x.next.state) && NyumbaOnlyCleared(c.state, x.next.state)
    ensures x.Return? ==>
      c.nkhomo == 0 && c.side == c.state.player && (x.status == Done || x.status == Halted)
    ensures x.Return? && x.status == Halted ==> HaltPoint(c)
  {
    var s := c.state;
    if c.nkhomo == 0 then
      if CanSwitchSide(c) then
        var c2 := Lifted(Switched(c));
        var c3 := if c2.hole == NYUMBA && Nyumba(c2.state, c2.side)
                  then c2.(state := ClearNyumba(c2.state, c2.side)) else c2;
        Next(c3)
      else if CanLift(c) then
        if c.hole == NYUMBA && Nyumba(s, c.side) then
          if Count(s.board, c.side, STORE) != 0 then
            if s.takata then Return(Done) else Return(Halted)
          else
            var c2 := Lifted(c);
            Next(c2.(state := ClearNyumba(c2.state, c.side)))
        else if Count(s.board, c.side, STORE) == 0 && s.takata && c.hole == s.trappedHole
                && r.hasMtajiMojaTrap then
          Return(Done)
        else
          Next(Lifted(c))
      else
        Return(Done)
    else if c.side != s.player then
      Next(Sown(ResetCfg(Switched(c))))
    else
      Next(Sown(Stepped(c)))
  }

  /** What exec_move leaves behind: the hand, the returned status and the
      number of loop iterations it performed. */
  datatype ExecResult = ExecResult(cfg: HandCfg, status: Status, used: nat)

  /** exec_move with a budget of `steps` iterations. It never reports an
      error; it reports NOTDONE exactly when the whole budget was spent, and
      DONE or HALTED only with an empty hand on the mover's side. */
  function Exec(c: HandCfg, r: Rules, steps: int): (e: ExecResult)
    requires HandInv(c)
    ensures HandInv(e.cfg) && Seeds(e.cfg) == Seeds(c)
    ensures SameTurn(c.state, e.cfg.state) && NyumbaOnlyCleared(c.state, e.cfg.state)
    ensures e.status != Error
    ensures e.status == NotDone <==> e.used == (if steps > 0 then steps else 0)
    ensures e.used <= (if steps > 0 then steps else 0)
    ensures e.status != NotDone ==> e.cfg.nkhomo == 0 && e.cfg.side == e.cfg.state.player
    ensures e.status == Halted ==> HaltPoint(e.cfg)
    decreases steps
  {
    if steps <= 0 then ExecResult(c, NotDone, 0)
    else
      match ExecStep(c, r)
      case Return(st) => ExecResult(c, st, 0)
      case Next(c') =>
        var e' := Exec(c', r, steps - 1);
        e'.(used := e'.used + 1)
  }

  /** One more iteration of a positive budget: the loop either returns at
      once, where it is, or goes on from the next hand with one step less. */
  lemma ExecUnfold(c: HandCfg, r: Rules, steps: int)
    requires HandInv(c) && steps > 0
    ensures ExecStep(c, r).Return? ==>
      Exec(c, r, steps).cfg == c && Exec(c, r, steps).status == ExecStep(c, r).status
    ensures ExecStep(c, r).Next? ==>
      Exec(c, r, steps).cfg == Exec(ExecStep(c, r).next, r, steps - 1).cfg
      && Exec(c, r, steps).status == Exec(ExecStep(c, r).next, r, steps - 1).status
  {
  }

  /** continue_move: the paused hand gives up the nyumba's intact status so
      the nyumba can be lifted. */
  function ContinueCfg(c: HandCfg): (c': HandCfg)
    ensures !Nyumba(c'.state, c.side) && Seeds(c') == Seeds(c) && (HandInv(c) ==> HandInv(c'))
    ensures NyumbaOnlyCleared(c.state, c'.state) && SameTurn(c.state, c'.state)
    ensures c' == c.(state := c'.state) && c'.state.board == c.state.board
  {
    c.(state := ClearNyumba(c.state, c.side))
  }

  /** `struct Hand`: a cursor on the board it changes in place. */
  class Hand {
    var state: BaoState
    var side: Player
    var hole: PlayHole
    var nkhomo: nat
    var dir: Dir

    function Cfg(): HandCfg
      reads this
    {
      HandCfg(state, side, hole, nkhomo, dir)
    }

    /** start_move: a new hand on the mover's side with the move's starting
        hole and direction, after the stage-specific set-up. */
    constructor StartMove(s: BaoState, r: Rules, m: Move)
      requires m.Move? && m.hole < STORE
      ensures Cfg() == Started(s, r, m)
    {
      var p := s.player;
      state := s;
      side := p;
      hole := m.hole;
      nkhomo := 0;
      dir := m.dir;
      new;
      if state.board[Idx(p)][STORE] != 0 {
        state := state.(board := SetCount(state.board, p, STORE, Count(state.board, p, STORE) - 1));
        state := state.(board := SetCount(state.board, p, m.hole, Count(state.board, p, m.hole) + 1));
        if CanPlayNamuaSpecial(state, r, m.hole) {
          state := state.(board := SetCount(state.board, p, NYUMBA, Count(state.board, p, NYUMBA) - 1));
          state := state.(board := SetCount(state.board, p, STORE, UnsignedDec(Count(state.board, p, STORE))));
          nkhomo := 2;
        }
      } else {
        if !state.takata && (state.nyumba[Idx(North)] || state.nyumba[Idx(South)]) {
          state := state.(nyumba := [false, false]);
        }
        Lift();
      }
    }

    /** Hand_lift. */
    method Lift()
      modifies this
      ensures Cfg() == Lifted(old(Cfg()))
    {
      nkhomo := nkhomo + Count(state.board, side, hole);
      state := state.(board := SetCount(state.board, side, hole, 0));
    }

    predicate CanLiftHere()
      reads this
    {
      CanLift(Cfg())
    }

    /** Hand_sow. */
    method Sow()
      requires nkhomo > 0
      modifies this
      ensures Cfg() == Sown(old(Cfg()))
    {
      state := state.(board := SetCount(state.board, side, hole, Count(state.board, side, hole) + 1));
      nkhomo := nkhomo - 1;
    }

    /** Hand_switch_side. */
    method SwitchSide()
      requires hole <= RF_KICHWA
      modifies this
      ensures Cfg() == Switched(old(Cfg()))
    {
      side := Opponent(side);
      hole := OpposingHole(hole);
    }

    /** Hand_step. */
    method Step()
      modifies this
      ensures Cfg() == Stepped(old(Cfg()))
    {
      match dir
      case Right =>
        hole := if hole + 1 > LB_KICHWA then LF_KICHWA else hole + 1;
      case Left =>
        hole := if hole == 0 then LB_KICHWA else hole - 1;
    }

    /** Hand_reset. */
    method Reset()
      modifies this
      ensures Cfg() == ResetCfg(old(Cfg()))
    {
      if hole <= LF_KIMBI {
        hole := LF_KICHWA;
        dir := Right;
      } else if hole >= RF_KIMBI {
        hole := RF_KICHWA;
        dir := Left;
      } else if dir == Right {
        hole := LF_KICHWA;
      } else {
        hole := RF_KICHWA;
      }
    }

    /** exec_move: runs the hand for at most `steps` iterations. */
    method ExecMove(r: Rules, steps: int) returns (st: Status)
      requires HandInv(Cfg())
      modifies this
      ensures Cfg() == Exec(old(Cfg()), r, steps).cfg
      ensures st == Exec(old(Cfg()), r, steps).status
    {
      var k := steps;
      while k > 0
        invariant HandInv(Cfg())
        invariant Exec(Cfg(), r, k).cfg == Exec(old(Cfg()), r, steps).cfg
        invariant Exec(Cfg(), r, k).status == Exec(old(Cfg()), r, steps).status
        decreases k
      {
        var stop;
        stop, st := Advance(r, k);
        if stop {
          return;
        }
        k := k - 1;
      }
      st := NotDone;
    }

    /** One iteration of exec_move's loop with `k` iterations left, seen
        through the budgeted run. */
    method Advance(r: Rules, ghost k: int) returns (stop: bool, st: Status)
      requires HandInv(Cfg()) && k > 0
      modifies this
      ensures HandInv(Cfg())
      ensures stop ==> Exec(old(Cfg()), r, k).cfg == Cfg() && Exec(old(Cfg()), r, k).status == st
      ensures !stop ==> Exec(old(Cfg()), r, k).cfg == Exec(Cfg(), r, k - 1).cfg
      ensures !stop ==> Exec(old(Cfg()), r, k).status == Exec(Cfg(), r, k - 1).status
    {
      ghost var before := Cfg();
      stop, st := Iterate(r);
      ExecUnfold(before, r, k);
    }

    /** One iteration of exec_move's loop: either a status to return with,
        the hand untouched, or the hand after lifting, capturing or
        sowing. */
    method Iterate(r: Rules) returns (stop: bool, st: Status)
      requires HandInv(Cfg())
      modifies this
      ensures stop ==> ExecStep(old(Cfg()), r) == Return(st) && Cfg() == old(Cfg())
      ensures !stop ==> ExecStep(old(Cfg()), r) == Next(Cfg())
    {
      stop, st := true, NotDone;
      if nkhomo == 0 {
        if CanSwitchSide(Cfg()) {
          SwitchSide();
          Lift();
          if hole == NYUMBA && state.nyumba[Idx(side)] {
            state := ClearNyumba(state, side);
          }
        } else if CanLiftHere() {
          if hole == NYUMBA && state.nyumba[Idx(side)] {
            if state.board[Idx(side)][STORE] != 0 {
              if state.takata {
                return true, Done;
              }
              return true, Halted;
            } else {
              Lift();
              state := ClearNyumba(state, side);
            }
          } else if state.board[Idx(side)][STORE] == 0 && state.takata
                    && hole == state.trappedHole && r.hasMtajiMojaTrap {
            return true, Done;
          } else {
            Lift();
          }
        } else {
          return true, Done;
        }
      } else {
        if side != state.player {
          SwitchSide();
          Reset();
          Sow();
        } else {
          Step();
          Sow();
        }
      }
      stop := false;
    }

    /** continue_move. */
    method ContinueMove()
      modifies this
      ensures Cfg() == ContinueCfg(old(Cfg()))
    {
      state := ClearNyumba(state, side);
    }
  }

  /** start_move conserves seeds, counting the hand, unless the nyumba
      special fires with fewer than two seeds in the store. */
  lemma StartConserves(s: BaoState, r: Rules, m: Move)
    requires m.Move? && m.hole < STORE
    requires SpecialFires(s, r, m) ==> Store(s, s.player) >= 2
    ensures Seeds(Started(s, r, m)) == Total(s.board)
  {
    var p := s.player;
    if Store(s, p) != 0 {
      var b1 := SetCount(s.board, p, STORE, Store(s, p) - 1);
      TotalSetCount(s.board, p, STORE, Store(s, p) - 1);
      var b2 := SetCount(b1, p, m.hole, Count(b1, p, m.hole) + 1);
      TotalSetCount(b1, p, m.hole, Count(b1, p, m.hole) + 1);
      var s1 := s.(board := b2);
      if CanPlayNamuaSpecial(s1, r, m.hole) {
        var b3 := SetCount(b2, p, NYUMBA, Count(b2, p, NYUMBA) - 1);
        TotalSetCount(b2, p, NYUMBA, Count(b2, p, NYUMBA) - 1);
        TotalSetCount(b3, p, STORE, UnsignedDec(Count(b3, p, STORE)));
      }
    }
  }

  /** With one seed in the store, the nyumba special takes the store from 0
      to UINT_MAX: start_move then creates 2^32 seeds. */
  lemma StartWrapsStore(s: BaoState, r: Rules, m: Move)
    requires m.Move? && m.hole < STORE && SpecialFires(s, r, m) && Store(s, s.player) == 1
    ensures Store(Started(s, r, m).state, s.player) == UINT_MAX
    ensures Seeds(Started(s, r, m)) == Total(s.board) + UINT_MAX + 1
  {
    var p := s.player;
    var b1 := SetCount(s.board, p, STORE, 0);
    TotalSetCount(s.board, p, STORE, 0);
    var b2 := SetCount(b1, p, NYUMBA, Count(b1, p, NYUMBA) + 1);
    TotalSetCount(b1, p, NYUMBA, Count(b1, p, NYUMBA) + 1);
    var b3 := SetCount(b2, p, NYUMBA, Count(b2, p, NYUMBA) - 1);
    TotalSetCount(b2, p, NYUMBA, Count(b2, p, NYUMBA) - 1);
    TotalSetCount(b3, p, STORE, UINT_MAX);
  }

  /** After continue_move the same hand never halts again: the mover's
      nyumba is no longer intact, and nothing in a move makes it intact. */
  lemma {:induction false} NoHaltAfterContinue(c: HandCfg, r: Rules, steps: int)
    requires HandInv(c) && c.side == c.state.player
    ensures Exec(ContinueCfg(c), r, steps).status != Halted
  {
    NoHaltWithoutNyumba(ContinueCfg(c), r, steps);
  }

  lemma {:induction false} NoHaltWithoutNyumba(c: HandCfg, r: Rules, steps: int)
    requires HandInv(c) && !Nyumba(c.state, c.state.player)
    ensures Exec(c, r, steps).status != Halted
    decreases steps
  {
    if steps > 0 {
      match ExecStep(c, r)
      case Return(st) =>
      case Next(c') =>
        NoHaltWithoutNyumba(c', r, steps - 1);
    }
  }

  /** `n` steps from hole `h` in direction `d`. */
  function StepN(h: PlayHole, d: Dir, n: nat): PlayHole
  {
    if n == 0 then h else NextHole(StepN(h, d, n - 1), d)
  }

  /** Reducing modulo 16 before adding a step changes nothing. */
  lemma ModStep(x: int, k: int)
    ensures (x % (LB_KICHWA + 1) + k) % (LB_KICHWA + 1) == (x + k) % (LB_KICHWA + 1)
  {
    var m := LB_KICHWA + 1;
    var q := x / m;
    assert x == m * q + x % m;
    ModShift(q, x % m + k);
  }

  lemma ModShift(q: int, y: int)
    ensures (16 * q + y) % 16 == y % 16
  {
    var z := 16 * q + y;
    assert z == 16 * (q + y / 16) + y % 16;
  }

  /** The landing hole test_mtaji_capture computes is where the last of `n`
      lifted seeds is sown: `n` single steps of Hand_step. */
  lemma {:induction false} LandingIsSowing(h: PlayHole, d: Dir, n: nat)
    ensures StepN(h, d, n) == Landing(h, n, d)
  {
    if n > 0 {
      LandingIsSowing(h, d, n - 1);
      var prev := if d == Right then h + (n - 1) else h - (n - 1);
      var cur := if d == Right then h + n else h - n;
      assert cur == prev + Delta(d);
      ModStep(prev, Delta(d));
    }
  }

  /** On a capture turn in namua with the capture test reading the mover's
      side, a capture move first fills the starting hole from the store and
      then, on its first iteration, captures the mirrored opponent hole. */
  lemma NamuaCaptureCaptures(s: BaoState, r: Rules, m: Move)
    requires m.Move? && m.hole < STORE && InNamua(s, s.player) && !s.takata
    requires s.flagsPlayer == s.player && CanCapture(s, m.hole)
    ensures var c := Started(s, r, m);
      c.nkhomo == 0 && CanSwitchSide(c)
      && ExecStep(c, r).Next? && ExecStep(c, r).next.side == Opponent(s.player)
      && ExecStep(c, r).next.nkhomo == Count(s.board, Opponent(s.player), OpposingHole(m.hole))
  {
  }
}
