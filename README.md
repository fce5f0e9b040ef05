# A verified model of the cbao Bao engine

This project models the rules engine and search of a computer player for Bao, the East African mancala game. The original is written in C.

Each side owns 16 play holes in two rows, plus a store ("mwa nkhomo").
- Holes 0..7 are the front row, where captures happen. Holes 8..15 are the back row, and hole 16 is the store.
- Hole 4 is the nyumba, a special house that counts as "intact" while its flag is set. A move clears the flag when it lifts the nyumba's seeds during the move or resumes after pausing on it. A mtaji capture turn clears both players' flags as it starts. A mtaji takata turn that starts from the nyumba lifts it and leaves the flag set.
- While a player's store still holds seeds, that player is in the *namua* stage: every move first puts one seed from the store onto the board.
- Once the store is empty, the player is in the *mtaji* stage: a move lifts the seeds of a hole.
- A turn either captures, or is a *takata* (plain sowing) turn.
- Under some regional rules, a mtaji sowing turn can set a *mtaji moja trap*, which blocks one hole of the opponent.

The project has five modules:

- `BaoTypes` (`bao_types.dfy`): the records of `tree.h`.
  - The board is two rows of 17 unbounded counts. The model keeps them non-negative and writes the 32-bit unsigned wrap out where it matters.
  - Also defined: the single-hole update and the seed total.
- `MoveGen` (`move_gen.dfy`): move enumeration.
  - Covers the hole helpers, `can_capture` and the seven `test_*` predicates.
  - `get_moves_bak` and `get_moves` are methods over a Dafny `array` buffer. They are proved to write exactly the list that the functions `Bak` and `Enumerate` specify.
  - Lemmas then prove what those lists mean: soundness, completeness, scan order and category priority.
- `Executor` (`executor.dfy`): move execution.
  - The class `Hand` updates its fields in place.
  - Each `Hand_*` operation, `start_move` and `continue_move` is proved to perform a pure transition on the snapshot `HandCfg`.
  - The loop of `exec_move` is proved equal to `Exec`, which recurses on the step budget.
  - Lemmas cover seed conservation, the statuses and the sowing geometry.
- `GameTree` (`game_tree.dfy`): tree nodes and the turn hand-over.
  - Tree nodes are values.
  - Covers `dup_node`, `prep_state` with `get_mtaji_moja_trap`, `update_node` and `new_tree`.
  - `grow_tree` is proved equal to `Grown`, which builds each candidate's children.
  - Also covers `find_branch` and the `shift_tree`/`unshift_tree` cursor, modelled as a path of child indices.
- `Search` (`search.dfy`): the search layer of `eval.c`, which is `eval_branch`, `get_best_score` and `best_branch`.
  - These are modelled once; `BaoTree.c` carries word-for-word copies at lines 467-504 and 629-648.
  - `get_best_score` is proved against the recursive `BestScore`/`BestOf`.
  - `best_branch` is proved to return the index of a maximal child.
  - The search methods take the expansion of a node as a ghost parameter `grow`. `IsGrowth` ties it to `Grown`, and `GrowthIsGrowth` shows that `grow_tree`'s own expansion qualifies.

Behaviour of the code worth noting:
- **Resuming a halted move.** `grow_tree` resumes the same hand on the same child after recording the paused outcome. It does not restart from a fresh copy.
- **The trap.** `get_mtaji_moja_trap` returns a hole when every mtaji capture move starts from that hole. Two moves from one hole in both directions still set a trap.
- **The `flags` byte.** Its player bit is read by `can_capture`, although the bit-packed flags are otherwise unused.
- **Ties in `best_branch`.** The tie-break as written is not a coin flip (see Findings).

## Model

| member | source | states |
|---|---|---|
| BaoTypes.Idx | tree.h:27-30 | North is array index 0 and South index 1; both fall below NPLAYERS |
| BaoTypes.Delta | tree.h:67-71 | a sowing direction is exactly -1 (LEFT) or +1 (RIGHT) |
| BaoTypes.SetCount | tree.h:99-106 | updating one hole of the board sets that hole and leaves every other hole of both sides unchanged |
| BaoTypes.UnsignedDec | tree.h:100 | decrementing an unsigned board counter subtracts one, and wraps zero to UINT_MAX |
| BaoTypes.ClearNyumba | BaoTree.c:753-756 | clearing one player's nyumba flag leaves the other player's flag and the rest of the state unchanged |
| BaoTypes.TotalSetCount | BaoTree.c:398-402 | changing one hole changes the board total by exactly the difference |
| BaoTypes.SumPrefix | eval.c:41-43 | the seeds in a prefix of a row never exceed the row's total |
| BaoTypes.InNamua | BaoTree.c:43 | IN_NAMUA: the side's store holds seeds |
| BaoTypes.InMtaji | BaoTree.c:45 | IN_MTAJI: the side's store is empty, so every side is in exactly one of the two stages |
| MoveGen.InCaptureRange | BaoTree.c:47 | the front row, holes 0..7, where captures happen |
| MoveGen.OpposingHole | BaoTree.c:49-55 | a front-row hole faces the front-row hole 7-h of the other side |
| MoveGen.OpposingInvolution | BaoTree.c:49-55 | the mirror of the mirror is the hole itself |
| MoveGen.Opponent | BaoTree.c:58-64 | the opponent is the other player |
| MoveGen.CanCaptureIff | BaoTree.c:68-76 | can_capture holds exactly for a front-row hole where both the own hole and the mirrored opponent hole are non-empty, on the side named by the flags player bit |
| MoveGen.CanCapture | BaoTree.c:68-76 | can_capture on the side of the flags player bit; CanCaptureIff states its meaning |
| MoveGen.CaptureIsMutual | BaoTree.c:68-76 | when a hole can capture, the hole facing it can capture back from the other side |
| MoveGen.TestNamuaTakata | BaoTree.c:110-118 | test_namua_takata: a non-empty hole other than the intact nyumba |
| MoveGen.TestNamuaTakataSingleton | BaoTree.c:122-128 | test_namua_takata_singleton: a non-empty hole other than the nyumba |
| MoveGen.TakataTestsAgree | BaoTree.c:110-128 | the singleton test accepts only holes the plain takata test accepts, and the two agree on every hole but the nyumba |
| MoveGen.TestNamuaSpecial | BaoTree.c:142-148 | test_namua_special: the intact, non-empty nyumba |
| MoveGen.NamuaSpecialFillsGap | BaoTree.c:110-148 | the nyumba special is offered exactly when the nyumba is non-empty and both takata tests refuse it |
| MoveGen.TestMtajiCapture | BaoTree.c:156-170 | test_mtaji_capture; MtajiCaptureShape states its meaning |
| MoveGen.TestMtajiTakata | BaoTree.c:178-189 | test_mtaji_takata; MtajiTakataTrap states its meaning |
| MoveGen.MtajiTakataTrap | BaoTree.c:178-189 | under the trap rule the trapped hole is accepted only when it is the intact nyumba holding more than one seed; any other hole, or any hole without the rule, is accepted exactly when it holds more than one seed |
| MoveGen.TestMtajiSpecial | BaoTree.c:203-222 | test_mtaji_special; TrapCancelShape states its meaning |
| MoveGen.TrapCancelOnlyWithoutTakata | BaoTree.c:178-222 | under the trap rule, the trap-cancel test passes only when the front-row takata test refuses every front-row hole |
| MoveGen.Landing | BaoTree.c:160-169 | the mtaji landing hole is h plus or minus the count, taken modulo 16 into 0..15 |
| MoveGen.MtajiCaptureShape | BaoTree.c:156-170 | a mtaji capture starts from a front-row hole holding 1 to the rule's maximum seeds, and lands on a front-row hole that can capture |
| MoveGen.TestMove | BaoTree.c:233-256 | the `MoveTestFunc` handed to get_moves_bak, dispatched to one of the seven tests |
| MoveGen.Scan | BaoTree.c:238-253 | the loop's accepted moves over the whole range with no buffer limit, at most two per hole; ScanSound and ScanComplete state its meaning |
| MoveGen.HereSound | BaoTree.c:237-252 | one hole contributes at most two moves, both from that hole and accepted by the test, LEFT before RIGHT |
| MoveGen.ScanSound | BaoTree.c:233-256 | every scanned move is an accepted move of the range, and the moves are strictly ascending by hole, LEFT before RIGHT |
| MoveGen.ScanComplete | BaoTree.c:233-256 | every move the test accepts in the range appears in the scan |
| MoveGen.ScanPrefix | BaoTree.c:236-254 | the moves scanned up to an earlier hole are a prefix of those scanned up to a later one |
| MoveGen.ScanIgnoresTakata | BaoTree.c:94-222 | no move test reads the takata flag, so setting it changes no scan |
| MoveGen.Bak | BaoTree.c:233-256 | get_moves_bak's buffer is the scan cut to bufsz moves; BakSound and GetMovesBak state its properties |
| MoveGen.Prefix | BaoTree.c:239-248 | the buffer keeps the first bufsz scanned moves, or all of them when fewer |
| MoveGen.BakFull | BaoTree.c:239-248 | once the scan up to a hole overflows the buffer, the rest of the range does not change the buffer |
| MoveGen.BakHole | BaoTree.c:237-253 | one loop turn appends exactly the hole's accepted moves, or reports a full buffer holding the scan's first bufsz moves |
| MoveGen.GetMovesBak | BaoTree.c:233-256 | the buffer holds at most bufsz moves, and they are exactly the first bufsz accepted moves of the range in scan order |
| MoveGen.BakSound | BaoTree.c:233-256 | the buffer holds at most bufsz accepted moves of the range, ascending by hole, LEFT before RIGHT |
| MoveGen.Categories | BaoTree.c:274-311 | the four get_moves_bak passes of each stage, with their ranges and tests, in get_moves' order |
| MoveGen.FirstNonEmpty | BaoTree.c:269-313 | the winning pass finds a move, and every earlier pass finds none |
| MoveGen.Enumerate | BaoTree.c:269-313 | at most bufsz moves, each a real move off a play hole with no nyumba flag |
| MoveGen.EnumerateChain | BaoTree.c:269-313 | the enumeration is the if-chain of get_moves over the four passes |
| MoveGen.EnumeratePriority | BaoTree.c:269-313 | the moves are empty iff every pass is empty; otherwise they are one pass's moves with every earlier pass empty; takata is kept when captures win, set when a later pass wins and cleared when none does |
| MoveGen.EnumerateSound | BaoTree.c:269-313 | every returned move passes the test of one of the stage's passes within its range, and the moves are ascending |
| MoveGen.GetMoves | BaoTree.c:269-313 | the buffer holds exactly the enumerated moves, and the state changes only in takata, as the enumeration says |
| MoveGen.CategoryMovesSound | BaoTree.c:269-313 | a pass yields only real moves off play holes; the trap-cancel pass never yields the store |
| MoveGen.NamuaCaptureWins | BaoTree.c:273-277 | in namua, when the mover has a capturing hole, get_moves returns capture moves only and keeps takata |
| MoveGen.NamuaSingletonNeverWins | BaoTree.c:279-287 | the namua takata-singleton pass never wins, because the takata pass before it accepts each hole it accepts |
| MoveGen.MtajiNoTrapNoCancel | BaoTree.c:203-222 | without a trapped hole the trap-cancel pass finds nothing |
| MoveGen.TrapCancelShape | BaoTree.c:203-222 | the trap-cancel pass finds moves only on a trapped hole from 7 up that holds more than one seed while every other front-row hole holds at most one, and then yields both directions |
| MoveGen.EnumerateStable | BaoTree.c:269-313 | enumerating again from the state get_moves leaves gives the same moves and the same takata |
| MoveGen.UnsignedHole | BaoTree.c:374 | a value stored in the unsigned hole enum wraps modulo 2^32 into 0..UINT_MAX |
| MoveGen.LoopHolesAsWritten | BaoTree.c:237-254 | get_moves_bak's loop on an unsigned hole tests at most one hole per turn and stops once start passes stop |
| MoveGen.AsWrittenNoTrapReadsPastRow | BaoTree.c:208-209 | the no-trap value -1 becomes UINT_MAX, passes the trap-cancel guard and indexes past the board row |
| MoveGen.AsWrittenNoTrapScanNeverEnds | BaoTree.c:303-304 | scanning from UINT_MAX to UINT_MAX, the loop guard holds on every turn, so the loop ends only when the buffer fills |
| MoveGen.StoreSentinelScanEnds | BaoTree.c:531 | with the store as the no-trap value, the trap-cancel loop tests one hole and stops |
| Executor.CanLift | BaoTree.c:405-408 | Hand_can_lift: the hand's hole holds more than one seed |
| Executor.CanSwitchSide | BaoTree.c:411-419 | Hand_can_switch_side: a front-row hole on a capture turn holding more than one seed, facing a non-empty hole |
| Executor.CanPlayNamuaSpecial | BaoTree.c:390-395 | can_play_namua_special: a takata turn from the intact nyumba holding at least the rule's minimum |
| Executor.SpecialFires | BaoTree.c:682-686 | start_move's nyumba special, stated on the state before the store seed is put down; Started states what follows from it |
| Executor.HaltPoint | BaoTree.c:714-718 | the pause point of exec_move: an empty hand on the mover's intact nyumba, liftable, on a capture turn with store seeds left; Exec states that only there does a run halt |
| Executor.Lifted | BaoTree.c:398-402 | Hand_lift moves all seeds of the current hole into the hand and conserves seeds |
| Executor.Hand.Lift | BaoTree.c:398-402 | the hand's new fields are those of Lifted |
| Executor.Sown | BaoTree.c:422-426 | Hand_sow moves one seed from the hand into the current hole and conserves seeds |
| Executor.Hand.Sow | BaoTree.c:422-426 | the hand's new fields are those of Sown |
| Executor.Switched | BaoTree.c:429-433 | Hand_switch_side moves to the other side's mirrored hole and changes nothing else |
| Executor.Hand.SwitchSide | BaoTree.c:429-433 | the hand's new fields are those of Switched |
| Executor.NextHole | BaoTree.c:436-448 | Hand_step moves one hole in the sowing direction within 0..15, wrapping 15 to 0 and 0 to 15 |
| Executor.Stepped | BaoTree.c:436-448 | stepping changes only the hole |
| Executor.Hand.Step | BaoTree.c:436-448 | the hand's new fields are those of Stepped |
| Executor.ResetCfg | BaoTree.c:451-464 | Hand_reset always ends on hole 0 sowing right or hole 7 sowing left; end holes decide the end, and middle holes keep the direction |
| Executor.Hand.Reset | BaoTree.c:451-464 | the hand's new fields are those of ResetCfg |
| Executor.Started | BaoTree.c:669-701 | start_move: in mtaji the hand lifts the whole starting hole; in namua it holds two seeds exactly when the nyumba special fires, and otherwise one store seed moved into the starting hole; only nyumba flags may be cleared |
| Executor.Hand.StartMove | BaoTree.c:669-701 | the new hand's fields are those of Started |
| Executor.StartConserves | BaoTree.c:682-698 | start_move conserves board seeds plus hand seeds when the store holds at least two seeds for the nyumba special |
| Executor.StartWrapsStore | BaoTree.c:684-689 | with one store seed, the nyumba special wraps the store to UINT_MAX and creates 2^32 seeds |
| Executor.ExecStep | BaoTree.c:705-747 | one exec_move iteration either continues with seeds conserved, keeps the invariant, and only clears nyumba flags, or returns DONE/HALTED with an empty hand on the mover's side; HALTED only at the nyumba pause point |
| Executor.Hand.Iterate | BaoTree.c:705-747 | one loop iteration performs ExecStep on the hand, or returns its status with the hand untouched |
| Executor.Exec | BaoTree.c:704-750 | exec_move never returns ERROR; it returns NOTDONE exactly when the whole budget is used; DONE or HALTED only with an empty hand on the mover's side; HALTED only at the nyumba pause point; seeds are conserved |
| Executor.ExecUnfold | BaoTree.c:705-748 | with a positive budget the run either returns at once or continues from the next hand with one step less |
| Executor.Hand.Advance | BaoTree.c:705-748 | one iteration with k steps left continues the budgeted run with k-1 steps, or ends it |
| Executor.Hand.ExecMove | BaoTree.c:704-750 | the hand ends in Exec's configuration and returns Exec's status |
| Executor.ContinueCfg | BaoTree.c:753-756 | continue_move clears the hand side's nyumba flag and changes nothing else |
| Executor.Hand.ContinueMove | BaoTree.c:753-756 | the hand's new fields are those of ContinueCfg |
| Executor.NoHaltAfterContinue | BaoTree.c:704-756 | after continue_move the same hand never halts again |
| Executor.NoHaltWithoutNyumba | BaoTree.c:716-722 | without an intact nyumba for the mover, exec_move never halts |
| Executor.LandingIsSowing | BaoTree.c:160-169 | the landing hole test_mtaji_capture computes is where n single Hand_steps lead |
| Executor.NamuaCaptureCaptures | BaoTree.c:669-715 | a namua capture move fills its hole from the store and then, on its first iteration, captures the mirrored opponent hole |
| GameTree.DupNode | BaoTree.c:323-333 | the copy has the same move and state and no children |
| GameTree.MojaTrap | BaoTree.c:342-358 | get_mtaji_moja_trap: the hole shared by every buffered mtaji capture, or NO_TRAP; MojaTrapSound and MojaTrapNone state its meaning |
| GameTree.CommonHole | BaoTree.c:350-355 | the trap candidate is the hole shared by every buffered move, or none |
| GameTree.SharedHole | BaoTree.c:350-355 | the comparison loop returns the hole shared by every buffered move, or NO_TRAP |
| GameTree.GetMtajiMojaTrap | BaoTree.c:342-358 | the trap probe returns MojaTrap |
| GameTree.MtajiCapturesFit | BaoTree.c:347-348 | at most 16 mtaji captures exist, so a MAXTRANS buffer loses none |
| GameTree.AscendingBound | BaoTree.c:347-348 | an ascending run of moves with keys in a range is no longer than the range |
| GameTree.MojaTrapSound | BaoTree.c:342-358 | a trap is a front-row hole with a mtaji capture move, and every mtaji capture move starts from it |
| GameTree.MojaTrapNone | BaoTree.c:342-358 | without a trap, there is no mtaji capture move or there are two from different holes |
| GameTree.Prepared | BaoTree.c:368-377 | prep_state clears takata, flips the player and keeps the board; in mtaji after a takata turn under the trap rule the trap is MojaTrap, and otherwise it is NO_TRAP |
| GameTree.PrepState | BaoTree.c:368-377 | the new state is Prepared |
| GameTree.UpdateNode | BaoTree.c:380-387 | the node gets the prepared state and the move with its nyumba flag |
| GameTree.NewTree | BaoTree.c:512-541 | the root has the rule's layout on both sides, both nyumba flags as the rule says, no takata, no trap, South to move and no children |
| GameTree.NewTreeSeeds | BaoTree.c:521-530 | the root holds twice the layout's seeds, and both sides start in the same stage |
| GameTree.Outcome | BaoTree.c:584-596 | update_node on a finished child: a leaf with the move's nyumba flag, the board kept, takata cleared and the turn passed |
| GameTree.ChildrenOf | BaoTree.c:576-600 | one candidate yields at most two leaf children with its hole and direction, the turn passed and takata cleared; with two, the first is the flagged paused outcome |
| GameTree.ChildrenOfCases | BaoTree.c:580-599 | a NOTDONE candidate is dropped; a finished one yields one unflagged child; a halted one yields the flagged paused outcome, the resumed hand never halts, and it adds the unflagged finished outcome when it finishes and nothing when it runs out of budget |
| GameTree.ChildrenConserve | BaoTree.c:576-600 | every child holds as many seeds as the parent when the store holds at least two seeds for the nyumba special |
| GameTree.GrownChildren | BaoTree.c:576-600 | a buffer of candidates yields at most two children each |
| GameTree.GrownChildrenSnoc | BaoTree.c:576-600 | the candidates' children are concatenated in buffer order |
| GameTree.GrownChildrenShape | BaoTree.c:576-600 | every grown child is a leaf reached by one of the candidates, with the turn passed and takata cleared |
| GameTree.Grown | BaoTree.c:565-602 | a node with children is returned unchanged; growth changes only takata of the node's own state and keeps its move, with at most 40 children |
| GameTree.GrowIdempotent | BaoTree.c:565-602 | growing a node twice is growing it once, also when the first growth found no move |
| GameTree.MtajiChildrenBound | BaoTree.c:576-600 | in mtaji each candidate yields at most one child |
| GameTree.MtajiNeverHalts | BaoTree.c:716-722 | in mtaji no move halts on the nyumba |
| GameTree.StoreStaysEmpty | BaoTree.c:704-750 | an empty store stays empty for the whole run, so the run never halts |
| GameTree.StepKeepsStore | BaoTree.c:705-747 | an iteration never changes either store |
| GameTree.ExpandMove | BaoTree.c:577-599 | one loop turn of grow_tree adds exactly the candidate's ChildrenOf |
| GameTree.GrowStep | BaoTree.c:576-600 | the children so far are extended by the candidate's children |
| GameTree.GrowChildren | BaoTree.c:576-600 | the loop builds exactly GrownChildren of the buffered candidates |
| GameTree.GrowTree | BaoTree.c:565-602 | grow_tree returns Grown and its number of children |
| GameTree.SameMove | BaoTree.c:605-607 | CMP_MOVE matches two moves exactly when they are the same move |
| GameTree.FindBranch | BaoTree.c:618-626 | find_branch returns the first child matching hole, direction and nyumba flag, or -1 when no child matches |
| GameTree.ShiftTreeAsWritten | BaoTree.c:651-657 | shift_tree as written fails exactly for an index above the number of children |
| GameTree.ShiftTree | BaoTree.c:651-657 | the corrected shift succeeds exactly for an existing child, and the cursor then names that child |
| GameTree.ShiftAsWrittenAcceptsEnd | BaoTree.c:653 | the index equal to the number of children is accepted as written, leaving a null cursor; the corrected shift rejects it |
| GameTree.UnshiftTree | BaoTree.c:660-666 | unshift_tree fails exactly at the root, and otherwise drops the last step of the path |
| GameTree.UnshiftAfterShift | BaoTree.c:651-666 | moving down to a child and back up returns to the same node |
| Search.Material | eval.c:41-43 | the mover's material never exceeds the board total |
| Search.MaterialExcludesStore | eval.c:42-43 | the material is the mover's side less the store |
| Search.EvalBranch | eval.c:32-47 | 0 for a node without children; otherwise non-negative for the mover, non-positive for the other player, and bounded by the board total |
| Search.EvalBranchValue | eval.c:32-47 | a node with children scores the mover's side of the board less the mover's store, positive for the mover and negated for the other player |
| Search.EvalAntisymmetric | eval.c:44-45 | the two players see a node with opposite scores |
| Search.GrowthIsGrowth | eval.c:54 | grow_tree's own expansion satisfies IsGrowth |
| Search.BestScore | eval.c:49-68 | get_best_score as a function; BestScoreIsBestChild states its meaning |
| Search.BestOf | eval.c:56-67 | the loop over the children as a function; BestOfIsMax states its meaning |
| Search.BestOfIsMax | eval.c:58-62 | the best of a run of children is never negative, at least each child's score, and either 0 or one of them |
| Search.BestScoreIsBestChild | eval.c:56-67 | at depth above 0, the score is max(0, best child score one level down) |
| Search.Pruned | eval.c:59-66 | the node keeps its move and grown state, and at depth above 0 it has no children |
| Search.Expand | eval.c:54 | grow_tree through the ghost expansion keeps the node's move |
| Search.GetBestScore | eval.c:49-68 | get_best_score returns BestScore and leaves the node Pruned |
| Search.ScoreChildren | eval.c:58-65 | the loop returns BestOf the children, starting from 0 |
| Search.KeepsEarlierAsWritten | eval.c:22-23 | the tie-break as written; AsWrittenAlwaysTakesLater states what it does |
| Search.Wrap32 | eval.c:23 | a 32-bit wrap lands in the signed range and differs from its argument by a multiple of 2^32 |
| Search.TruncRem | eval.c:23 | C's `%`: the remainder is smaller than the divisor in magnitude, has the sign of the dividend, and differs from the dividend by a multiple of the divisor |
| Search.AsWrittenAlwaysTakesLater | eval.c:23 | the tie-break as written never keeps the earlier index |
| Search.KeepsEarlier | eval.c:22-23 | the corrected tie-break, a coin flip on the drawn value; TieBreakGoesBothWays states it |
| Search.TieBreakGoesBothWays | eval.c:23 | the corrected tie-break can keep either index |
| Search.Score | eval.c:20-21 | the score of child j: its get_best_score for the player to move at the grown node |
| Search.PickBest | eval.c:19-28 | the loop returns -1 when no score beats -1000, and otherwise an index whose score is maximal and at least -1000; each child is left pruned |
| Search.BestBranch | eval.c:11-30 | best_branch returns -1 or an index below the grown node's child count; -1 means every child scores at most -1000; otherwise the index has a maximal score; the node keeps its move and grown state, with each child pruned |
| Search.BestBranchFindsChild | eval.c:58-62 | below the root every score is at least 0, so best_branch picks a child whenever there is one |

## Left out

- Memory management: `malloc` and `free`, their NULL-return paths, `free_tree` (BaoTree.c:544-551) and `end_move` (BaoTree.c:759-762). Nodes and states are values, so nothing is ever released. The `-1` of `grow_tree` on allocation failure and the `choke` it triggers in `get_best_score` (eval.c:55) do not arise.
- Aliasing: in the source a child's state is updated in place through the hand. The model copies the state into the hand and back; no two nodes ever share a state.
- Unset child counts: `dup_node` (BaoTree.c:323-333) copies move and state and clears the child slots, but leaves `nchildren` unset, and `grow_tree` reads it first (BaoTree.c:573). A copy may therefore look grown and be returned with no children at all. The model gives every copy zero children.
- Parent pointers: `dup_node` never sets `parent`, so `unshift_tree` on a grown node reads an unset field. The model records the parent in the cursor's path instead.
- Child-array overflow: halted candidates can push `grow_tree` past its 20 child slots, and a full array has no NULL terminator for `free_tree`. The model keeps the children in a sequence, which may hold up to 40.
- The bit-packed flag macros of tree.h:32-64 are not modelled, except for the player bit of `flags` that `can_capture` reads. That byte is never initialised, so its value is the `flagsPlayer` parameter of `GameTree.NewTree`.
- The no-trap value: the source uses `H_STORE` at the root and `-1` after a turn hand-over. The model uses the store index in both places. It matches no play hole, and the trap-cancel test finds no move there. What `-1` does as written is under Findings.
- `rand()`: the value it draws at each tie is the `roll` parameter of `Search.BestBranch`. How random values are generated is not modelled.
- Search.PickBest: decides ties with the corrected coin flip `KeepsEarlier` on the drawn value, not with eval.c:23 as written, which always takes the later child. On a tie the model may keep the earlier child where the source never does.
- Negative seed limits: the rule's mtaji capture maximum and nyumba special minimum are `int` in the source but compared with unsigned counts, so a negative value would act as a huge one. The model types them `nat`; every rule table in main.c is non-negative.
- A negative search depth or step budget: depths are `nat`. A step budget of 0 or less makes `exec_move` return NOTDONE at once, and `Exec` models that too.
- I/O: the command loop of main.c and the error reporting of error.c are not part of this model.
- Executor.StartConserves: holds only when the store holds at least two seeds for the nyumba special. With one seed the unsigned store wraps, and Executor.StartWrapsStore states what happens then.
- GameTree.ChildrenConserve: carries the same store condition as Executor.StartConserves.
- Search.BestBranch: does not model `best_branch`'s -1 on a failed `grow_tree`, because growth cannot fail in a value model.
- MoveGen.NamuaCaptureWins: assumes that the player bit of `flags` names the mover, because `can_capture` reads that bit.
- Executor.NamuaCaptureCaptures: assumes the same of the `flags` player bit.

## Findings

| source | as written | input that shows it | evidently intended | confidence | as-written member | corrected member |
|---|---|---|---|---|---|---|
| BaoTree.c:653 | `shift_tree` rejects only `path > nchildren`, so `path == nchildren` succeeds | any node with `path` equal to its number of children: the cursor moves to the NULL terminator slot, or past the array when 20 slots are full, and the call returns 0 | reject `path >= nchildren` | not executed | GameTree.ShiftTreeAsWritten, GameTree.ShiftAsWrittenAcceptsEnd | GameTree.ShiftTree, GameTree.UnshiftAfterShift |
| BaoTree.c:374 | the no-trap value is `-1`, stored in the unsigned `Hole` enum as UINT_MAX (when the compiler makes an enum of non-negative constants unsigned, as GCC does). test_mtaji_special's guard `trapped_hole < H_RFKICHWA` lets it through and reads `board[player][UINT_MAX]`. The trap-cancel `get_moves_bak` from UINT_MAX to UINT_MAX never fails `start <= stop`, because `start++` wraps to 0, so it loops until the buffer fills or for ever | any mtaji position after a hand-over that stored `-1` (a namua turn, a capture turn, or no trap rule) where the mover has no capture move and no front-row hole with more than one seed | a no-trap value no play hole has, for which the trap-cancel pass finds nothing and ends | not executed | MoveGen.UnsignedHole, MoveGen.AsWrittenNoTrapReadsPastRow, MoveGen.AsWrittenNoTrapScanNeverEnds | MoveGen.StoreSentinelScanEnds, MoveGen.MtajiNoTrapNoCancel, GameTree.Prepared |
| eval.c:23 | the tie-break `(rand() * 10) % 2` is always 0, so `best_branch` always takes the later of two tied children (and `rand() * 10` overflows `int` for large draws) | any tie, e.g. two children with equal scores and any `rand()` value | a coin flip on the drawn value, keeping either index | not executed | Search.KeepsEarlierAsWritten, Search.AsWrittenAlwaysTakesLater | Search.KeepsEarlier, Search.TieBreakGoesBothWays, Search.PickBest |
