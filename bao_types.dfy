/**
 * Constants, enumerations and records of the Bao engine (tree.h), plus the
 * board arithmetic every other module relies on: per-hole counts, single-hole
 * updates and the seed total that moves conserve.
 */
module BaoTypes {

  /** Number of players, holes per side (16 play holes and the store) and
      the size of a node's child array and of the move buffer. */
  const NPLAYERS: nat := 2
  const NHOLES: nat := 17
  const MAXTRANS: nat := 20

  /** Named holes of one side. 0..7 is the front row (the capture range),
      8..15 the back row, 16 the store ("mwa nkhomo"). */
  const LF_KICHWA: int := 0
  const LF_KIMBI: int := 1
  const NYUMBA: int := 4
  const RF_KIMBI: int := 6
  const RF_KICHWA: int := 7
  const RB_KICHWA: int := 8
  const RB_KIMBI: int := 9
  const LB_KIMBI: int := 14
  const LB_KICHWA: int := 15
  const STORE: int := 16

  /** Largest value of the source's 32-bit `unsigned int` counters. */
  const UINT_MAX: nat := 0xFFFF_FFFF

  /** The "no trapped hole" sentinel. The source stores `H_STORE` at the root
      and `-1` after every turn hand-over; both lie outside the play holes, so
      neither equals a hole a move starts from. The model uses `STORE` in both
      places: it never matches a play hole, and the trap-cancel test reads the
      store count there, which is zero in the mtaji stage, so it yields no move. */
  const NO_TRAP: int := STORE

  /** A hole index of one side, store included (`enum Hole`). */
  type Hole = h: int | 0 <= h < NHOLES

  /** A hole a hand can stand on: the 16 play holes, store excluded. */
  type PlayHole = h: int | 0 <= h < STORE

  /** The seed counts of one side, indexed by hole. */
  type Row = r: seq<nat> | |r| == NHOLES witness seq(NHOLES, _ => 0)

  /** `unsigned int board[NPLAYERS][NHOLES]`, indexed by `Idx(player)`. */
  type Board = b: seq<Row> | |b| == NPLAYERS witness [EMPTY_ROW, EMPTY_ROW]

  const EMPTY_ROW: Row := seq(NHOLES, _ => 0)

  /** One flag per player (`int nyumba[NPLAYERS]`). */
  type Flags = f: seq<bool> | |f| == NPLAYERS witness [false, false]

  datatype Player = North | South

  /** Array index of a player: P_NORTH = 0, P_SOUTH = 1. */
  function Idx(p: Player): (i: nat)
    ensures i < NPLAYERS
    ensures p == North <==> i == 0
  {
    if p == North then 0 else 1
  }

  /** Sowing direction: MXD_LEFT = -1, MXD_RIGHT = 1. */
  datatype Dir = Left | Right

  function Delta(d: Dir): (k: int)
    ensures k == -1 || k == 1
    ensures k == -1 <==> d == Left
  {
    match d
    case Left => -1
    case Right => 1
  }

  /** Execution status of a move (`enum MoveExecSts`). `Halted` is the pause
      on the first attempt to lift the intact nyumba in a capture move. */
  datatype Status = Error | Halted | Done | NotDone

  /** A move: the starting hole, the direction and whether it records the
      outcome paused on the nyumba. `NoMove` is the root's move, which the
      source writes as hole `H_STORE` with direction 0. */
  datatype Move = NoMove | Move(hole: Hole, dir: Dir, nyumbaSown: bool)

  /** Regional rule variant (`struct BaoRules`), read-only everywhere. The
      two seed limits are compared with unsigned board counts, so they are
      kept non-negative, as every rule table sets them. */
  datatype Rules = Rules(
    boardSetting: Row,
    hasNyumba: bool,
    hasMtajiMojaTrap: bool,
    maxNkhomoForMtajiCapture: nat,
    minNkhomoForNamuaSpecial: nat,
    maxMoveExecDepth: int)

  /** `struct BaoState`. Of the packed `flags` byte only its player bit is
      ever read (by the capture test); `flagsPlayer` holds that bit. No code
      writes it: the root inherits whatever the uninitialised byte held and
      every copy carries it along. */
  datatype BaoState = BaoState(
    board: Board,
    flagsPlayer: Player,
    takata: bool,
    nyumba: Flags,
    trappedHole: Hole,
    player: Player)

  function Count(b: Board, p: Player, h: int): nat
    requires 0 <= h < NHOLES
  {
    b[Idx(p)][h]
  }

  /** The board with one hole of one side set to `v`. */
  function SetCount(b: Board, p: Player, h: int, v: nat): (b': Board)
    requires 0 <= h < NHOLES
    ensures Count(b', p, h) == v
    ensures forall q: Player, k {:trigger Count(b', q, k)} :: 0 <= k < NHOLES && (q != p || k != h) ==> Count(b', q, k) == Count(b, q, k)
  {
    b[Idx(p) := b[Idx(p)][h := v]]
  }

  function Store(s: BaoState, p: Player): nat
  {
    Count(s.board, p, STORE)
  }

  /** A side is in the namua stage while its store holds seeds, and in the
      mtaji stage once the store is empty. */
  predicate InNamua(s: BaoState, p: Player)
  {
    Store(s, p) != 0
  }

  predicate InMtaji(s: BaoState, p: Player)
    ensures InMtaji(s, p) <==> !InNamua(s, p)
  {
    Store(s, p) == 0
  }

  predicate Nyumba(s: BaoState, p: Player)
  {
    s.nyumba[Idx(p)]
  }

  function ClearNyumba(s: BaoState, p: Player): (s': BaoState)
    ensures !Nyumba(s', p)
    ensures forall q: Player :: q != p ==> Nyumba(s', q) == Nyumba(s, q)
    ensures s'.board == s.board && s'.player == s.player && s'.takata == s.takata
    ensures s'.trappedHole == s.trappedHole && s'.flagsPlayer == s.flagsPlayer
  {
    s.(nyumba := s.nyumba[Idx(p) := false])
  }

  /** `x - 1` on a 32-bit unsigned counter: zero wraps to `UINT_MAX`. */
  function UnsignedDec(x: nat): (y: nat)
    ensures x > 0 ==> y + 1 == x
    ensures x == 0 ==> y == UINT_MAX
  {
    if x == 0 then UINT_MAX else x - 1
  }

  function Sum(r: seq<nat>): nat
  {
    if r == [] then 0 else Sum(r[..|r| - 1]) + r[|r| - 1]
  }

  /** Seeds on the whole board: both sides, all 17 holes. */
  function Total(b: Board): nat
  {
    Sum(b[0]) + Sum(b[1])
  }

  lemma {:induction false} SumUpdate(r: seq<nat>, i: nat, v: nat)
    requires i < |r|
    ensures Sum(r[i := v]) + r[i] == Sum(r) + v
  {
    var n := |r| - 1;
    assert r[i := v][..n] == if i == n then r[..n] else r[..n][i := v];
    if i < n {
      SumUpdate(r[..n], i, v);
    }
  }

  /** Changing one hole changes the board total by exactly the difference. */
  lemma TotalSetCount(b: Board, p: Player, h: int, v: nat)
    requires 0 <= h < NHOLES
    ensures Total(SetCount(b, p, h, v)) + Count(b, p, h) == Total(b) + v
  {
    SumUpdate(b[Idx(p)], h, v);
  }

  lemma {:induction false} SumAppend(r: seq<nat>, t: seq<nat>)
    ensures Sum(r + t) == Sum(r) + Sum(t)
  {
    if t != [] {
      assert (r + t)[..|r + t| - 1] == r + t[..|t| - 1];
      SumAppend(r, t[..|t| - 1]);
    } else {
      assert r + t == r;
    }
  }

  /** A prefix never holds more seeds than the whole row. */
  lemma SumPrefix(r: seq<nat>, k: nat)
    requires k <= |r|
    ensures Sum(r[..k]) <= Sum(r)
  {
    assert r == r[..k] + r[k..];
    SumAppend(r[..k], r[k..]);
  }
}
