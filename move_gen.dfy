/**
 * Move enumeration (BaoTree.c:43-313): the hole helpers, the capture test and
 * the per-category move tests, the buffer-filling scan `get_moves_bak` and the
 * category-priority enumerator `get_moves`.
 *
 * Each scan is specified by `Scan`, the exact, ordered list of the moves a
 * test accepts in a hole range; `Bak` caps it at the buffer size; `Enumerate`
 * picks the first non-empty category of the stage. The methods that fill the
 * buffer are proved to write exactly those lists.
 */
module MoveGen {
  import opened BaoTypes

  predicate InCaptureRange(h: int)
  {
    LF_KICHWA <= h <= RF_KICHWA
  }

  /** The opponent's hole facing front-row hole `h` (get_opposing_hole).
      `Hole` is an unsigned enum in the source, so the branch for a negative
      difference never fires there; every caller passes a front-row hole. */
  function OpposingHole(h: int): (o: int)
    requires InCaptureRange(h)
    ensures InCaptureRange(o) && h + o == RF_KICHWA
  {
    var d := RF_KICHWA - h;
    if d < LF_KICHWA then STORE + d else d
  }

  /** Mirroring a front-row hole twice gives the hole back. */
  lemma OpposingInvolution(h: int)
    requires InCaptureRange(h)
    ensures OpposingHole(OpposingHole(h)) == h
  {
  }

  function Opponent(p: Player): (q: Player)
    ensures q != p
  {
    if p == North then South else North
  }

  /** can_capture: a front-row hole that is non-empty and faces a non-empty
      opponent hole. As in the source, the side examined is the player bit of
      the state's `flags` byte (`flagsPlayer`), not the player to move. */
  predicate CanCapture(s: BaoState, h: int)
    requires 0 <= h < NHOLES
  {
    var p := s.flagsPlayer;
    !(!InCaptureRange(h) || Count(s.board, p, h) == 0
      || Count(s.board, Opponent(p), OpposingHole(h)) == 0)
  }

  /** test_namua_takata: a non-empty hole, except the nyumba while intact. */
  predicate TestNamuaTakata(s: BaoState, h: int)
    requires 0 <= h < NHOLES
  {
    !(Count(s.board, s.player, h) == 0 || (h == NYUMBA && Nyumba(s, s.player)))
  }

  /** test_namua_takata_singleton: a non-empty hole other than the nyumba. */
  predicate TestNamuaTakataSingleton(s: BaoState, h: int)
    requires 0 <= h < NHOLES
  {
    !(Count(s.board, s.player, h) == 0 || h == NYUMBA)
  }

  /** test_namua_special: the intact, non-empty nyumba. The rule's minimum
      seed count is not checked here; `start_move` applies it. */
  predicate TestNamuaSpecial(s: BaoState)
  {
    Nyumba(s, s.player) && Count(s.board, s.player, NYUMBA) != 0
  }

  /** The hole reached by sowing `n` seeds from `h` in direction `d`. The
      source adds or subtracts on an unsigned 32-bit hole and then takes the
      value modulo 16; since 16 divides 2^32 that equals Dafny's Euclidean
      `%` on the mathematical value, which is never negative. */
  function Landing(h: int, n: int, d: Dir): (l: int)
    ensures 0 <= l <= LB_KICHWA
    ensures (l - h - Delta(d) * n) % (LB_KICHWA + 1) == 0
  {
    (if d == Right then h + n else h - n) % (LB_KICHWA + 1)
  }

  /** test_mtaji_capture: a front-row hole holding 1..max seeds whose
      landing hole passes the capture test. */
  predicate TestMtajiCapture(s: BaoState, r: Rules, h: int, d: Dir)
    requires 0 <= h < NHOLES
  {
    var n := Count(s.board, s.player, h);
    if !InCaptureRange(h) || n == 0 || n > r.maxNkhomoForMtajiCapture then false
    else CanCapture(s, Landing(h, n, d))
  }

  /** test_mtaji_takata: more than one seed; under the mtaji moja rule the
      trapped hole is refused unless it is the intact nyumba. */
  predicate TestMtajiTakata(s: BaoState, r: Rules, h: int)
    requires 0 <= h < NHOLES
  {
    if Count(s.board, s.player, h) <= 1 then false
    else if r.hasMtajiMojaTrap && s.trappedHole == h then h == NYUMBA && Nyumba(s, s.player)
    else true
  }

  /** test_mtaji_special, the trap-cancel test: the trapped hole holds more
      than one seed and no other front-row hole does. The guard refuses every
      trapped hole below RF_KICHWA, exactly as written in the source. */
  predicate TestMtajiSpecial(s: BaoState)
  {
    var t := s.trappedHole;
    if t < RF_KICHWA || Count(s.board, s.player, t) <= 1 then false
    else forall i :: LF_KICHWA <= i <= RF_KICHWA && i != t ==> Count(s.board, s.player, i) <= 1
  }

  /** The `MoveTestFunc` pointers handed to get_moves_bak. */
  datatype MoveTest =
    | NamuaCapture
    | NamuaTakata
    | NamuaTakataSingleton
    | NamuaSpecial
    | MtajiCapture
    | MtajiTakata
    | MtajiSpecial

  predicate TestMove(t: MoveTest, s: BaoState, r: Rules, h: int, d: Dir)
    requires 0 <= h < NHOLES
  {
    match t
    case NamuaCapture => CanCapture(s, h)
    case NamuaTakata => TestNamuaTakata(s, h)
    case NamuaTakataSingleton => TestNamuaTakataSingleton(s, h)
    case NamuaSpecial => TestNamuaSpecial(s)
    case MtajiCapture => TestMtajiCapture(s, r, h, d)
    case MtajiTakata => TestMtajiTakata(s, r, h)
    case MtajiSpecial => TestMtajiSpecial(s)
  }

  /** Position of a move in the scan order: by hole, LEFT before RIGHT. */
  function Key(m: Move): int
    requires m.Move?
  {
    2 * m.hole + (if m.dir == Left then 0 else 1)
  }

  /** The moves a test accepts at one hole, LEFT first. */
  function Here(t: MoveTest, s: BaoState, r: Rules, h: int): seq<Move>
    requires 0 <= h < NHOLES
  {
    (if TestMove(t, s, r, h, Left) then [Move(h, Left, false)] else [])
    + (if TestMove(t, s, r, h, Right) then [Move(h, Right, false)] else [])
  }

  /** Every move the test accepts in holes start..stop, in scan order, with
      no buffer limit. */
  function Scan(t: MoveTest, s: BaoState, r: Rules, start: int, stop: int): (ms: seq<Move>)
    requires 0 <= start && stop < NHOLES
    ensures |ms| <= 2 * (if stop < start then 0 else stop - start + 1)
    decreases stop - start
  {
    if stop < start then [] else Scan(t, s, r, start, stop - 1) + Here(t, s, r, stop)
  }

  /** Every element of `ms` is a move from holes start..stop that the test
      accepts. */
  predicate AllAccepted(ms: seq<Move>, t: MoveTest, s: BaoState, r: Rules, start: int, stop: int)
  {
    forall i :: 0 <= i < |ms| ==>
      ms[i].Move? && start <= ms[i].hole <= stop && !ms[i].nyumbaSown
      && TestMove(t, s, r, ms[i].hole, ms[i].dir)
  }

  /** Moves strictly ascending in scan order, hence each at most once. */
  predicate Ascending(ms: seq<Move>)
  {
    forall i, j :: 0 <= i < j < |ms| ==> ms[i].Move? && ms[j].Move? && Key(ms[i]) < Key(ms[j])
  }

  /** The moves accepted at one hole, LEFT before RIGHT. */
  lemma HereSound(t: MoveTest, s: BaoState, r: Rules, h: int)
    requires 0 <= h < NHOLES
    ensures |Here(t, s, r, h)| <= 2
    ensures AllAccepted(Here(t, s, r, h), t, s, r, h, h)
    ensures Ascending(Here(t, s, r, h))
  {
  }

  lemma AcceptedAppend(front: seq<Move>, here: seq<Move>, t: MoveTest, s: BaoState, r: Rules, start: int, stop: int)
    requires AllAccepted(front, t, s, r, start, stop - 1)
    requires AllAccepted(here, t, s, r, stop, stop)
    requires start <= stop
    ensures AllAccepted(front + here, t, s, r, start, stop)
  {
    var ms := front + here;
    forall i | 0 <= i < |ms|
      ensures ms[i].Move? && start <= ms[i].hole <= stop && !ms[i].nyumbaSown
      ensures TestMove(t, s, r, ms[i].hole, ms[i].dir)
    {
      if i >= |front| {
        assert ms[i] == here[i - |front|];
      } else {
        assert ms[i] == front[i];
      }
    }
  }

  lemma AscendingAppend(front: seq<Move>, here: seq<Move>, stop: int)
    requires Ascending(front) && Ascending(here)
    requires forall i :: 0 <= i < |front| ==> front[i].Move? && front[i].hole < stop
    requires forall i :: 0 <= i < |here| ==> here[i].Move? && here[i].hole == stop
    ensures Ascending(front + here)
  {
    var ms := front + here;
    forall i, j | 0 <= i < j < |ms|
      ensures ms[i].Move? && ms[j].Move? && Key(ms[i]) < Key(ms[j])
    {
      if j >= |front| {
        assert ms[j] == here[j - |front|];
        if i >= |front| {
          assert ms[i] == here[i - |front|];
        } else {
          assert ms[i] == front[i];
        }
      } else {
        assert ms[i] == front[i] && ms[j] == front[j];
      }
    }
  }

  /** The scan holds only accepted moves of the range, ascending in scan
      order. */
  lemma {:induction false} ScanSound(t: MoveTest, s: BaoState, r: Rules, start: int, stop: int)
    requires 0 <= start && stop < NHOLES
    ensures AllAccepted(Scan(t, s, r, start, stop), t, s, r, start, stop)
    ensures Ascending(Scan(t, s, r, start, stop))
    decreases stop - start
  {
    if start <= stop {
      ScanSound(t, s, r, start, stop - 1);
      HereSound(t, s, r, stop);
      var front := Scan(t, s, r, start, stop - 1);
      var here := Here(t, s, r, stop);
      assert Scan(t, s, r, start, stop) == front + here;
      AcceptedAppend(front, here, t, s, r, start, stop);
      AscendingAppend(front, here, stop);
    }
  }

  /** The first `k` elements of `ms`, or all of them when there are fewer. */
  function Prefix(ms: seq<Move>, k: nat): (p: seq<Move>)
    ensures |p| <= k && p <= ms
    ensures |ms| <= k ==> p == ms
    ensures |ms| > k ==> |p| == k
  {
    if |ms| <= k then ms else ms[..k]
  }

  /** What get_moves_bak leaves in a buffer of `bufsz` slots. */
  function Bak(t: MoveTest, s: BaoState, r: Rules, start: int, stop: int, bufsz: nat): seq<Move>
    requires 0 <= start && stop < NHOLES
  {
    Prefix(Scan(t, s, r, start, stop), bufsz)
  }

  /** The moves scanned up to hole `b` are a prefix of those scanned up to `c`. */
  lemma {:induction false} ScanPrefix(t: MoveTest, s: BaoState, r: Rules, start: int, b: int, c: int)
    requires 0 <= start && start - 1 <= b <= c < NHOLES
    ensures Scan(t, s, r, start, b) <= Scan(t, s, r, start, c)
    decreases c - b
  {
    if b < c {
      ScanPrefix(t, s, r, start, b, c - 1);
    }
  }

  /** Every move the test accepts in the range is in the scan. */
  lemma {:induction false} ScanComplete(t: MoveTest, s: BaoState, r: Rules, start: int, stop: int, h: int, d: Dir)
    requires 0 <= start <= h <= stop < NHOLES
    requires TestMove(t, s, r, h, d)
    ensures Move(h, d, false) in Scan(t, s, r, start, stop)
  {
    ScanPrefix(t, s, r, start, h, stop);
    var upto := Scan(t, s, r, start, h);
    var before := Scan(t, s, r, start, h - 1);
    var here := Here(t, s, r, h);
    assert upto == before + here;
    var k := if d == Left || !TestMove(t, s, r, h, Left) then 0 else 1;
    assert here[k] == Move(h, d, false);
    assert upto[|before| + k] == Move(h, d, false);
    assert Scan(t, s, r, start, stop)[|before| + k] == upto[|before| + k];
  }

  /** No move test reads the `takata` flag, so setting it changes no scan. */
  lemma {:induction false} ScanIgnoresTakata(t: MoveTest, s: BaoState, r: Rules, start: int, stop: int, x: bool)
    requires 0 <= start && stop < NHOLES
    ensures Scan(t, s.(takata := x), r, start, stop) == Scan(t, s, r, start, stop)
    decreases stop - start
  {
    if start <= stop {
      ScanIgnoresTakata(t, s, r, start, stop - 1, x);
      assert Here(t, s.(takata := x), r, stop) == Here(t, s, r, stop);
    }
  }

  /** Once the scan up to hole `h` overflows the buffer, the rest of the
      range no longer changes what the buffer holds. */
  lemma BakFull(t: MoveTest, s: BaoState, r: Rules, start: int, h: int, stop: int, bufsz: nat)
    requires 0 <= start <= h <= stop < NHOLES
    requires |Scan(t, s, r, start, h)| > bufsz
    ensures Bak(t, s, r, start, stop, bufsz) == Scan(t, s, r, start, h)[..bufsz]
  {
    ScanPrefix(t, s, r, start, h, stop);
  }

  /** One turn of get_moves_bak's loop: the moves hole `h` adds to the
      buffer, LEFT before RIGHT, stopping at the first one that finds the
      buffer full. */
  method BakHole(buf: array<Move>, bufsz: nat, n: nat, s: BaoState, r: Rules, start: int, h: int, t: MoveTest)
    returns (n': nat, full: bool)
    requires n <= bufsz <= buf.Length
    requires 0 <= start <= h < NHOLES
    requires buf[..n] == Scan(t, s, r, start, h - 1)
    modifies buf
    ensures n' <= bufsz
    ensures !full ==> buf[..n'] == Scan(t, s, r, start, h)
    ensures full ==> bufsz < |Scan(t, s, r, start, h)| && buf[..n'] == Scan(t, s, r, start, h)[..bufsz]
  {
    ghost var done := buf[..n];
    var left := TestMove(t, s, r, h, Left);
    var right := TestMove(t, s, r, h, Right);
    ghost var here := Here(t, s, r, h);
    assert Scan(t, s, r, start, h) == done + here;
    n', full := n, false;
    if left {
      if n' == bufsz {
        return n', true;
      }
      buf[n'] := Move(h, Left, false);
      n' := n' + 1;
      assert buf[..n'] == done + [Move(h, Left, false)];
    }
    assert buf[..n'] == done + (if left then [Move(h, Left, false)] else []);
    if right {
      if n' == bufsz {
        assert buf[..n'] == (done + here)[..bufsz];
        return n', true;
      }
      buf[n'] := Move(h, Right, false);
      n' := n' + 1;
    }
    assert buf[..n'] == done + here;
  }

  /** get_moves_bak: fills `buf` with the accepted moves of holes
      start..stop, stopping when `bufsz` slots are used. */
  method GetMovesBak(buf: array<Move>, bufsz: nat, s: BaoState, r: Rules, start: int, stop: int, t: MoveTest)
    returns (n: nat)
    requires bufsz <= buf.Length
    requires 0 <= start < NHOLES && 0 <= stop < NHOLES
    modifies buf
    ensures n <= bufsz
    ensures buf[..n] == Bak(t, s, r, start, stop, bufsz)
  {
    n := 0;
    var h := start;
    while h <= stop
      invariant start <= h <= if start <= stop then stop + 1 else start
      invariant n <= bufsz
      invariant buf[..n] == Scan(t, s, r, start, h - 1)
    {
      var full;
      n, full := BakHole(buf, bufsz, n, s, r, start, h, t);
      if full {
        BakFull(t, s, r, start, h, stop, bufsz);
        return;
      }
      h := h + 1;
    }
  }

  /** One enumeration pass: a hole range and the test applied to it. */
  datatype Category = Category(start: Hole, stop: Hole, test: MoveTest)

  /** The four passes of each stage, in priority order. Namua: capture,
      takata, takata-singleton, nyumba special. Mtaji: capture, front-row
      takata, trap-cancel on the trapped hole, back-row takata. */
  function Categories(s: BaoState): (cs: seq<Category>)
    ensures |cs| == 4
  {
    if InNamua(s, s.player) then
      [ Category(LF_KICHWA, RF_KICHWA, NamuaCapture),
        Category(LF_KICHWA, RF_KICHWA, NamuaTakata),
        Category(LF_KICHWA, RF_KICHWA, NamuaTakataSingleton),
        Category(NYUMBA, NYUMBA, NamuaSpecial) ]
    else
      [ Category(LF_KICHWA, LB_KICHWA, MtajiCapture),
        Category(LF_KICHWA, RF_KICHWA, MtajiTakata),
        Category(s.trappedHole, s.trappedHole, MtajiSpecial),
        Category(RB_KICHWA, LB_KICHWA, MtajiTakata) ]
  }

  function CategoryMoves(s: BaoState, r: Rules, c: Category, bufsz: nat): seq<Move>
  {
    Bak(c.test, s, r, c.start, c.stop, bufsz)
  }

  /** Index of the first category from `k` on whose pass finds a move, or
      `|cs|` when none does. */
  function FirstNonEmpty(s: BaoState, r: Rules, cs: seq<Category>, bufsz: nat, k: nat): (w: nat)
    requires k <= |cs|
    ensures k <= w <= |cs|
    ensures w < |cs| ==> CategoryMoves(s, r, cs[w], bufsz) != []
    ensures forall j :: k <= j < w ==> CategoryMoves(s, r, cs[j], bufsz) == []
    decreases |cs| - k
  {
    if k == |cs| then k
    else if CategoryMoves(s, r, cs[k], bufsz) != [] then k
    else FirstNonEmpty(s, r, cs, bufsz, k + 1)
  }

  /** The result of get_moves: the moves found and the new `takata` flag. */
  datatype Enumeration = Enumeration(moves: seq<Move>, takata: bool)

  /** get_moves as a function: the moves of the first non-empty category.
      `takata` is kept when captures win, set when a later category wins and
      cleared when no category finds a move. */
  function Enumerate(s: BaoState, r: Rules, bufsz: nat): (e: Enumeration)
    ensures |e.moves| <= bufsz
    ensures forall i :: 0 <= i < |e.moves| ==>
      e.moves[i].Move? && e.moves[i].hole < STORE && !e.moves[i].nyumbaSown
  {
    var cs := Categories(s);
    var w := FirstNonEmpty(s, r, cs, bufsz, 0);
    var ms := if w < |cs| then CategoryMoves(s, r, cs[w], bufsz) else [];
    CategoryMovesSound(s, r, cs, w, bufsz);
    Enumeration(ms, if w == 0 then s.takata else w < |cs|)
  }

  /** The moves of a pass are accepted moves of its range; only the
      trap-cancel pass can name the store, and then it finds nothing. */
  lemma CategoryMovesSound(s: BaoState, r: Rules, cs: seq<Category>, w: nat, bufsz: nat)
    requires cs == Categories(s) && w <= |cs|
    ensures w < |cs| ==> forall i :: 0 <= i < |CategoryMoves(s, r, cs[w], bufsz)| ==>
      var m := CategoryMoves(s, r, cs[w], bufsz)[i];
      m.Move? && m.hole < STORE && !m.nyumbaSown
  {
    if w < |cs| {
      var c := cs[w];
      var ms := Scan(c.test, s, r, c.start, c.stop);
      assert CategoryMoves(s, r, c, bufsz) <= ms;
      ScanSound(c.test, s, r, c.start, c.stop);
      if c.stop == STORE {
        assert Scan(c.test, s, r, STORE, STORE) == Scan(c.test, s, r, STORE, STORE - 1) + Here(c.test, s, r, STORE);
      }
      var cm := CategoryMoves(s, r, c, bufsz);
      forall i | 0 <= i < |cm|
        ensures cm[i].Move? && cm[i].hole < STORE && !cm[i].nyumbaSown
      {
        assert cm[i] == ms[i];
      }
    }
  }

  /** Enumerate unrolled into the if-chain that get_moves runs. */
  lemma EnumerateChain(s: BaoState, r: Rules, bufsz: nat)
    ensures var cs := Categories(s);
      var m0 := CategoryMoves(s, r, cs[0], bufsz);
      var m1 := CategoryMoves(s, r, cs[1], bufsz);
      var m2 := CategoryMoves(s, r, cs[2], bufsz);
      var m3 := CategoryMoves(s, r, cs[3], bufsz);
      Enumerate(s, r, bufsz) ==
        if m0 != [] then Enumeration(m0, s.takata)
        else if m1 != [] then Enumeration(m1, true)
        else if m2 != [] then Enumeration(m2, true)
        else if m3 != [] then Enumeration(m3, true)
        else Enumeration([], false)
  {
    var cs := Categories(s);
    var w := FirstNonEmpty(s, r, cs, bufsz, 0);
    assert w == FirstNonEmpty(s, r, cs, bufsz, 0);
  }

  /** Enumerating again from the state that get_moves left behind gives the
      same moves and the same `takata`: no pass reads the flag, and the flag
      it leaves is the one it would set again. */
  lemma EnumerateStable(s: BaoState, r: Rules, bufsz: nat)
    ensures Enumerate(s.(takata := Enumerate(s, r, bufsz).takata), r, bufsz) == Enumerate(s, r, bufsz)
  {
    var x := Enumerate(s, r, bufsz).takata;
    var s' := s.(takata := x);
    EnumerateChain(s, r, bufsz);
    EnumerateChain(s', r, bufsz);
    var cs := Categories(s);
    assert Categories(s') == cs;
    forall k | 0 <= k < 4
      ensures CategoryMoves(s', r, cs[k], bufsz) == CategoryMoves(s, r, cs[k], bufsz)
    {
      ScanIgnoresTakata(cs[k].test, s, r, cs[k].start, cs[k].stop, x);
    }
  }

  /** get_moves: runs the passes of the mover's stage in priority order,
      returns the first that finds a move and updates `takata` on the way. */
  method GetMoves(buf: array<Move>, bufsz: nat, s: BaoState, r: Rules) returns (n: nat, s': BaoState)
    requires bufsz <= buf.Length
    modifies buf
    ensures n <= bufsz
    ensures buf[..n] == Enumerate(s, r, bufsz).moves
    ensures s' == s.(takata := Enumerate(s, r, bufsz).takata)
  {
    EnumerateChain(s, r, bufsz);
    ghost var cs := Categories(s);
    s' := s;
    if InNamua(s, s.player) {
      n := GetMovesBak(buf, bufsz, s', r, LF_KICHWA, RF_KICHWA, NamuaCapture);
      assert buf[..n] == CategoryMoves(s, r, cs[0], bufsz);
      if n != 0 {
        return;
      }
      s' := s'.(takata := true);
      n := GetMovesBak(buf, bufsz, s', r, LF_KICHWA, RF_KICHWA, NamuaTakata);
      ScanIgnoresTakata(NamuaTakata, s, r, LF_KICHWA, RF_KICHWA, true);
      assert buf[..n] == CategoryMoves(s, r, cs[1], bufsz);
      if n != 0 {
        return;
      }
      n := GetMovesBak(buf, bufsz, s', r, LF_KICHWA, RF_KICHWA, NamuaTakataSingleton);
      ScanIgnoresTakata(NamuaTakataSingleton, s, r, LF_KICHWA, RF_KICHWA, true);
      assert buf[..n] == CategoryMoves(s, r, cs[2], bufsz);
      if n != 0 {
        return;
      }
      n := GetMovesBak(buf, bufsz, s', r, NYUMBA, NYUMBA, NamuaSpecial);
      ScanIgnoresTakata(NamuaSpecial, s, r, NYUMBA, NYUMBA, true);
      assert buf[..n] == CategoryMoves(s, r, cs[3], bufsz);
      if n == 0 {
        s' := s'.(takata := false);
      }
    } else {
      n := GetMovesBak(buf, bufsz, s', r, LF_KICHWA, LB_KICHWA, MtajiCapture);
      assert buf[..n] == CategoryMoves(s, r, cs[0], bufsz);
      if n != 0 {
        return;
      }
      s' := s'.(takata := true);
      n := GetMovesBak(buf, bufsz, s', r, LF_KICHWA, RF_KICHWA, MtajiTakata);
      ScanIgnoresTakata(MtajiTakata, s, r, LF_KICHWA, RF_KICHWA, true);
      assert buf[..n] == CategoryMoves(s, r, cs[1], bufsz);
      if n != 0 {
        return;
      }
      n := GetMovesBak(buf, bufsz, s', r, s'.trappedHole, s'.trappedHole, MtajiSpecial);
      ScanIgnoresTakata(MtajiSpecial, s, r, s.trappedHole, s.trappedHole, true);
      assert buf[..n] == CategoryMoves(s, r, cs[2], bufsz);
      if n != 0 {
        return;
      }
      n := GetMovesBak(buf, bufsz, s', r, RB_KICHWA, LB_KICHWA, MtajiTakata);
      ScanIgnoresTakata(MtajiTakata, s, r, RB_KICHWA, LB_KICHWA, true);
      assert buf[..n] == CategoryMoves(s, r, cs[3], bufsz);
      if n == 0 {
        s' := s'.(takata := false);
      }
    }
  }

  /** The buffer holds at most `bufsz` moves, each from the pass's range and
      accepted by its test, in ascending hole order with LEFT before RIGHT. */
  lemma BakSound(t: MoveTest, s: BaoState, r: Rules, start: int, stop: int, bufsz: nat)
    requires 0 <= start && stop < NHOLES
    ensures var ms := Bak(t, s, r, start, stop, bufsz);
      |ms| <= bufsz && AllAccepted(ms, t, s, r, start, stop) && Ascending(ms)
  {
    var all := Scan(t, s, r, start, stop);
    var ms := Bak(t, s, r, start, stop, bufsz);
    ScanSound(t, s, r, start, stop);
    assert forall i :: 0 <= i < |ms| ==> ms[i] == all[i];
  }

  /** The moves get_moves returns are those of one pass, every earlier pass
      of the stage having found nothing; takata follows the pass that won. */
  lemma EnumeratePriority(s: BaoState, r: Rules, bufsz: nat)
    ensures var cs := Categories(s);
      var e := Enumerate(s, r, bufsz);
      (e.moves == [] <==> forall k :: 0 <= k < 4 ==> CategoryMoves(s, r, cs[k], bufsz) == [])
      && (e.moves != [] ==>
            exists k :: (0 <= k < 4 && e.moves == CategoryMoves(s, r, cs[k], bufsz)
              && (forall j :: 0 <= j < k ==> CategoryMoves(s, r, cs[j], bufsz) == [])
              && e.takata == (if k == 0 then s.takata else true)))
      && (e.moves == [] ==> !e.takata)
  {
    EnumerateChain(s, r, bufsz);
  }

  /** Every move get_moves returns comes from the winning pass's range,
      passes its test and appears in scan order. */
  lemma EnumerateSound(s: BaoState, r: Rules, bufsz: nat)
    ensures var e := Enumerate(s, r, bufsz);
      Ascending(e.moves)
      && forall i :: 0 <= i < |e.moves| ==>
           exists c :: (c in Categories(s) && c.start <= e.moves[i].hole <= c.stop
             && TestMove(c.test, s, r, e.moves[i].hole, e.moves[i].dir))
  {
    var cs := Categories(s);
    var e := Enumerate(s, r, bufsz);
    var w := FirstNonEmpty(s, r, cs, bufsz, 0);
    if w < |cs| {
      var c := cs[w];
      BakSound(c.test, s, r, c.start, c.stop, bufsz);
      assert e.moves == CategoryMoves(s, r, c, bufsz);
      forall i | 0 <= i < |e.moves|
        ensures exists c :: (c in Categories(s) && c.start <= e.moves[i].hole <= c.stop
          && TestMove(c.test, s, r, e.moves[i].hole, e.moves[i].dir))
      {
        assert c in cs;
      }
    }
  }

  /** In namua, when the mover (the side `can_capture` examines) has a
      capturing hole and the buffer has room, get_moves returns capture
      moves only and leaves `takata` as it was. */
  lemma NamuaCaptureWins(s: BaoState, r: Rules, bufsz: nat, h: int)
    requires InNamua(s, s.player) && s.flagsPlayer == s.player && bufsz > 0
    requires InCaptureRange(h) && CanCapture(s, h)
    ensures var e := Enumerate(s, r, bufsz);
      e.moves != [] && e.takata == s.takata
      && forall i :: 0 <= i < |e.moves| ==> CanCapture(s, e.moves[i].hole)
  {
    var cs := Categories(s);
    ScanComplete(NamuaCapture, s, r, LF_KICHWA, RF_KICHWA, h, Left);
    assert CategoryMoves(s, r, cs[0], bufsz) != [];
    BakSound(NamuaCapture, s, r, LF_KICHWA, RF_KICHWA, bufsz);
  }

  /** The takata-singleton pass never wins in namua: a hole it accepts is
      also accepted by the takata pass tried before it. */
  lemma NamuaSingletonNeverWins(s: BaoState, r: Rules, bufsz: nat)
    requires InNamua(s, s.player)
    ensures FirstNonEmpty(s, r, Categories(s), bufsz, 0) != 2
  {
    var cs := Categories(s);
    var m2 := CategoryMoves(s, r, cs[2], bufsz);
    if m2 != [] {
      BakSound(NamuaTakataSingleton, s, r, LF_KICHWA, RF_KICHWA, bufsz);
      var m := m2[0];
      assert TestNamuaTakata(s, m.hole);
      ScanComplete(NamuaTakata, s, r, LF_KICHWA, RF_KICHWA, m.hole, m.dir);
      assert CategoryMoves(s, r, cs[1], bufsz) != [];
    }
  }

  /** Without a trapped hole the trap-cancel pass finds nothing. */
  lemma MtajiNoTrapNoCancel(s: BaoState, r: Rules, bufsz: nat)
    requires InMtaji(s, s.player) && s.trappedHole == NO_TRAP
    ensures CategoryMoves(s, r, Categories(s)[2], bufsz) == []
  {
    assert Scan(MtajiSpecial, s, r, STORE, STORE) == Scan(MtajiSpecial, s, r, STORE, STORE - 1) + Here(MtajiSpecial, s, r, STORE);
  }

  /** The trap-cancel pass finds moves only on a trapped hole from RF_KICHWA
      up holding more than one seed while every other front-row hole holds at
      most one, and then offers both directions from it. */
  lemma TrapCancelShape(s: BaoState, r: Rules, bufsz: nat)
    requires InMtaji(s, s.player) && bufsz >= 2
    requires CategoryMoves(s, r, Categories(s)[2], bufsz) != []
    ensures var t := s.trappedHole;
      RF_KICHWA <= t < STORE && Count(s.board, s.player, t) > 1
      && (forall i :: LF_KICHWA <= i <= RF_KICHWA && i != t ==> Count(s.board, s.player, i) <= 1)
      && CategoryMoves(s, r, Categories(s)[2], bufsz) == [Move(t, Left, false), Move(t, Right, false)]
  {
    var t := s.trappedHole;
    assert Scan(MtajiSpecial, s, r, t, t) == Scan(MtajiSpecial, s, r, t, t - 1) + Here(MtajiSpecial, s, r, t);
  }

  /** A mtaji capture move starts from a front-row hole holding between one
      and the rule's maximum seeds, and lands on a front-row hole that can
      capture. */
  lemma MtajiCaptureShape(s: BaoState, r: Rules, h: int, d: Dir)
    requires 0 <= h < NHOLES && TestMtajiCapture(s, r, h, d)
    ensures var n := Count(s.board, s.player, h);
      InCaptureRange(h) && 1 <= n <= r.maxNkhomoForMtajiCapture
      && InCaptureRange(Landing(h, n, d)) && CanCapture(s, Landing(h, n, d))
  {
  }

  /** can_capture accepts exactly the front-row holes where both the own
      hole and the mirrored opponent hole hold seeds. */
  lemma CanCaptureIff(s: BaoState, h: int)
    requires 0 <= h < NHOLES
    ensures CanCapture(s, h) <==>
      InCaptureRange(h) && Count(s.board, s.flagsPlayer, h) > 0
      && Count(s.board, Opponent(s.flagsPlayer), RF_KICHWA - h) > 0
  {
  }

  /** Capture threat is mutual: when a hole can capture, so can the hole
      facing it, seen from the other side of the board. */
  lemma CaptureIsMutual(s: BaoState, h: int)
    requires 0 <= h < NHOLES && CanCapture(s, h)
    ensures CanCapture(s.(flagsPlayer := Opponent(s.flagsPlayer)), OpposingHole(h))
  {
    OpposingInvolution(h);
  }

  /** The singleton takata test is the plain one with the nyumba always
      refused: the two agree on every other hole, and the singleton test
      accepts nothing the plain one refuses. */
  lemma TakataTestsAgree(s: BaoState, h: int)
    requires 0 <= h < NHOLES
    ensures TestNamuaTakataSingleton(s, h) ==> TestNamuaTakata(s, h)
    ensures h != NYUMBA ==> (TestNamuaTakataSingleton(s, h) <==> TestNamuaTakata(s, h))
  {
  }

  /** The nyumba special is offered exactly when the nyumba is a non-empty
      hole that both takata tests refuse. */
  lemma NamuaSpecialFillsGap(s: BaoState)
    ensures TestNamuaSpecial(s) <==>
      Count(s.board, s.player, NYUMBA) != 0 && !TestNamuaTakata(s, NYUMBA)
      && !TestNamuaTakataSingleton(s, NYUMBA)
  {
  }

  /** Under the mtaji moja rule the trapped hole is refused as a takata unless
      it is the intact nyumba; every other hole, and every hole when the rule
      is off, is accepted exactly when it holds more than one seed. */
  lemma MtajiTakataTrap(s: BaoState, r: Rules, h: int)
    requires 0 <= h < NHOLES
    ensures r.hasMtajiMojaTrap && s.trappedHole == h ==>
      (TestMtajiTakata(s, r, h) <==>
        Count(s.board, s.player, h) > 1 && h == NYUMBA && Nyumba(s, s.player))
    ensures !(r.hasMtajiMojaTrap && s.trappedHole == h) ==>
      (TestMtajiTakata(s, r, h) <==> Count(s.board, s.player, h) > 1)
  {
  }

  /** The trap-cancel test passes only when the front-row takata test refuses
      every front-row hole, the trapped one included. */
  lemma TrapCancelOnlyWithoutTakata(s: BaoState, r: Rules, i: int)
    requires r.hasMtajiMojaTrap && TestMtajiSpecial(s)
    requires LF_KICHWA <= i <= RF_KICHWA
    ensures !TestMtajiTakata(s, r, i)
  {
  }

  /** A hole number as the unsigned 32-bit `Hole` enum of the source holds
      it: a negative value wraps round modulo 2^32. */
  function UnsignedHole(v: int): (h: nat)
    ensures h <= UINT_MAX && (h - v) % (UINT_MAX + 1) == 0
  {
    v % (UINT_MAX + 1)
  }

  /** The holes get_moves_bak's loop tests in its first `n` turns, on the
      unsigned hole as written: it stops once `start` passes `stop`, and
      `start++` wraps from UINT_MAX round to 0. */
  function LoopHolesAsWritten(start: nat, stop: nat, n: nat): (hs: seq<nat>)
    requires start <= UINT_MAX
    ensures |hs| <= n
    decreases n
  {
    if n == 0 || start > stop then []
    else [start] + LoopHolesAsWritten((start + 1) % (UINT_MAX + 1), stop, n - 1)
  }

  /** As written, "no trap" is `-1`, which the unsigned hole turns into
      UINT_MAX: test_mtaji_special's `< H_RFKICHWA` guard lets it through and
      the count it reads next lies past the end of the board row. */
  lemma AsWrittenNoTrapReadsPastRow()
    ensures var t := UnsignedHole(-1);
      t == UINT_MAX && !(t < RF_KICHWA) && t >= NHOLES
  {
  }

  /** As written, the trap-cancel pass scans from UINT_MAX to UINT_MAX, and
      its loop guard never fails: every turn, from any start, is followed by
      another, so the loop ends only when the buffer fills. */
  lemma {:induction false} AsWrittenNoTrapScanNeverEnds(start: nat, n: nat)
    requires start <= UINT_MAX
    ensures |LoopHolesAsWritten(start, UINT_MAX, n)| == n
    decreases n
  {
    if n > 0 {
      AsWrittenNoTrapScanNeverEnds((start + 1) % (UINT_MAX + 1), n - 1);
    }
  }

  /** With the store as the no-trap value, the trap-cancel loop tests the
      store once and stops. */
  lemma StoreSentinelScanEnds(n: nat)
    ensures LoopHolesAsWritten(NO_TRAP, NO_TRAP, n) == if n == 0 then [] else [NO_TRAP]
  {
    if n > 0 {
      assert LoopHolesAsWritten(NO_TRAP + 1, NO_TRAP, n - 1) == [];
    }
  }
}
