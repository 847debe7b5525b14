# Ultimate Tic-Tac-Toe bot, modelled in Dafny

The bot plays Ultimate Tic-Tac-Toe on a 3×3 grid of 3×3 sub-boards. The cell a player takes names the sub-board the opponent must play in next. The repository holds two generations of the bot side by side, and this project models the move-deciding core of both:

- **Sub-board rules.** The newer generation's `TTT.cpp` (module `TTT`) and the older `ttt.cpp` (`LegacyTTT`) cover:
  - the winner of a nine-cell board;
  - its free cells;
  - who can still win it (X, O, Both or None);
  - the fewest moves to complete a line.

  `Common` holds the shared `Player` enumeration, the eight winning lines and the move-to-index maps.
- **Sub-board tactics.** `TTTAI.cpp` (`TTTAI`) finds winning moves and setup moves and scores a move.
- **Game transition.** There are three variants, each modelled as written:
  - `UTTT.cpp` (`UTTT`);
  - `UTTTGame.cpp` (`UTTTGame`), with its winnability bookkeeping;
  - `uttt.cpp` (`LegacyUTTT`), which recomputes the macro board.

  `GameState` is the newer state record and its per-turn assessment.
- **Search.** `Minimax` is the reference depth-limited minimax and the fail-hard alpha-beta search, with the soundness theorem connecting them. `TreeSearch.h` (`TreeSearch`) is the older recursive search with its completeness flag. `MiniMaxSearch.h` (`MiniMaxSearch`) is the newer search object: it counts nodes and drives a round-robin deepening loop.
- **Move selection.** `UTTTAI.cpp` (`UTTTAI`) has the state assessment, the five rating stages and the elimination loop. `utttai.cpp` (`LegacyUTTTAI`) has the older additive heuristic and its pass loop.
- **Protocol decoding.** `UTTTBot.cpp` (`UTTTBot`) and `utttbot.cpp` (`LegacyUTTTBot`) turn `update` and `setting` lines into board state. `Protocol` models their `split` helper and `std::stoi`. The older bot's own search and tie selection are modelled as well.

Code that loops or updates state in place is modelled as methods with loop invariants. Each such method is proved against a function that states what it computes, and the properties the code promises are proved about those functions as lemmas. The bots and the search object are classes whose methods update their fields.

TTTGame is declared in `TTTGame.h` but its definition is not part of this model. Its functions are modelled with `TTT.cpp`'s definitions, which have the same interface.

The model follows the code where it departs from the documented design:
- `winnable-by` on a board that is already won returns the winner (`TTT.cpp`) or None (`ttt.cpp`), rather than being out of contract.
- The search stage rates all legal moves, not the candidates passed to it.
- The newer selection returns the first survivor rather than a random one.

## Model

| member | source | states |
|---|---|---|
| Common.WinsEntries | TTT.cpp:3-7 | the eight winning lines are the three rows, three columns and two diagonals in the source's order |
| Common.LinesThroughCounts | TTT.cpp:3-7 | the number of winning lines through a cell is 2 to 4 and equals the count of `wins` entries holding it |
| Common.MoveOf | UTTT.cpp:88-93 | the move built from sub-board `mb` and cell `md` lies on the grid and maps back to `mb` and `md` |
| Common.CoordinatesRoundTrip | UTTT.cpp:38-41 | a grid move's (sub-board, cell) pair converts back to the same move |
| Common.MacroIndex | UTTT.cpp:38 | a move on the grid lands in one of the nine sub-boards |
| Common.CellIndex | UTTT.cpp:41 | a move on the grid lands on one of the nine cells of its sub-board, which names the next sub-board |
| TTT.GetWinner | TTT.cpp:9-26 | None exactly when no line is complete; otherwise the owner of the first complete line in `wins` order |
| TTT.CellsBelow | TTT.cpp:66-73 | the cells below `n` holding `p`, all of them, in ascending order |
| TTT.Moves | TTT.cpp:28-35 | a cell is a move iff the board has no winner and the cell is empty; ascending |
| TTT.GetMoves | TTT.cpp:28-35 | the loop returns `Moves`: empty once won, otherwise every empty cell in ascending order |
| TTT.GetCellsOccupiedByPlayer | TTT.cpp:66-73 | exactly the cells holding `p`, in ascending order |
| TTT.DoMove | TTT.cpp:37-42 | the copy holds `p` at `m` and every other cell unchanged |
| TTT.ClassifyOpenLines | TTT.cpp:49-62 | the scan over `wins` returns the open-line classification, with the early `Both` return |
| TTT.IsWinnableForPlayer | TTT.cpp:44-63 | the winner of a won board, otherwise the open-line classification |
| TTT.WinnabilityOfUnwonBoard | TTT.cpp:44-63 | on an unwon board: Both iff a line is free of X and another free of O; None iff no line is free of either; otherwise the side with a free line |
| TTT.EmptyBoardIsWinnableByBoth | TTT.cpp:44-63 | the empty board is winnable by both sides |
| TTT.GetMinimumMovesToWin | TTT.cpp:75-98 | the loop computes `MinimumMovesToWin` |
| TTT.LineStep | TTT.cpp:85-93 | one line's update of the running minimum, as the loop body does it |
| TTT.MinimumMovesToWinIsLeastNeed | TTT.cpp:75-98 | the result is 0..3; 0 iff the board is won or every line holds an opponent mark; otherwise the fewest marks any opponent-free line still needs, attained by some line |
| TTT.MinMovesFromIsLeastNeed | TTT.cpp:83-95 | the scan from line `w` on keeps the least-need invariant to the end |
| LegacyTTT.PlayerCount | ttt.cpp:74-80 | the number of cells holding `p`, equal to the size of `GetCellsOccupiedByPlayer` |
| LegacyTTT.MarksAreCells | ttt.cpp:74-80 | counting marks in a prefix agrees with listing the occupied cells |
| LegacyTTT.MarksFillBoard | ttt.cpp:41-46 | X and O marks together fill the board iff every cell is X or O |
| LegacyTTT.GetPlayer | ttt.cpp:41-52 | None iff the board is full of marks; otherwise O iff X has more marks than O |
| LegacyTTT.ChildrenBelowMeaning | ttt.cpp:54-65 | one child per move, child `k` being the board with move `k` played by `turn` |
| LegacyTTT.GetChildren | ttt.cpp:54-65 | one child per legal move, in move order, holding the player to move at that cell and the rest unchanged |
| LegacyTTT.PlayEach | ttt.cpp:61-62 | the loop builds the children of the listed moves |
| LegacyTTT.IsWinnableForPlayer | ttt.cpp:82-105 | None on a won board (unlike TTT.cpp, which returns the winner), otherwise the open-line classification |
| LegacyTTT.IsGameOver | ttt.cpp:107-112 | over iff there is a winner or no cell is empty |
| TTTAI.LineCompletion | TTTAI.cpp:40-43 | at most one cell per line, a cell whose two partners hold `p`; when such a cell does not itself hold `p` it is the one returned |
| TTTAI.WinningMovesMeaning | TTTAI.cpp:36-46 | every listed winning move completes a line for `p`, and every cell not holding `p` that completes a line is listed |
| TTTAI.GetWinningMoves | TTTAI.cpp:36-46 | the loop over `wins` returns one completion per line in line order, at most 8, each completing a line |
| TTTAI.LineSetupMeaning | TTTAI.cpp:55-71 | a line adds only empty cells of a line holding `p` beside two empty cells, at most two for a real player, and both such cells when the line holds exactly one `p` |
| TTTAI.AroundExtends | TTTAI.cpp:55-71 | each of the three position tests adds the two empty partners of a lone `p`, or nothing |
| TTTAI.LineSetupShape | TTTAI.cpp:55-71 | a line adds an even number of empty cells, at most two for a real player |
| TTTAI.SetupMovesAreEmptyPairs | TTTAI.cpp:48-75 | the setup moves come in pairs of empty cells, at most two per line |
| TTTAI.SetupMovesByLine | TTTAI.cpp:53-72 | each line appends its setup cells after those of the lines before |
| TTTAI.GetSetupMoves | TTTAI.cpp:48-75 | the loop returns the setup moves: empty cells, in pairs, at most 16 for a real player |
| TTTAI.CountBound | TTTAI.cpp:26-30 | an occurrence count is at most the list's length |
| TTTAI.RateMoveCases | TTTAI.cpp:5-34 | 100 iff the move completes one of the player's lines; 0 for any other move while such a completion exists; otherwise a score from 0 to 48 built from setups and blocked completions |
| GameState.DefaultState | UTTTGame.h:22-39 | every sub-board Active; `subGamesWinnableBy` Both at index 0 and `Player(0)`, which is O, elsewhere; O to move in round 1, no winner, 8 wins each |
| UTTT.Place | UTTT.cpp:38-46 | the cell the move names holds the mover's mark and every other cell of every sub-board is unchanged |
| UTTT.OpenUnfinished | UTTT.cpp:52-55 | every undecided (None) sub-board becomes Active, all others keep their status |
| UTTT.OpenUnfinishedBoards | UTTT.cpp:54-55 | the loop computes `OpenUnfinished` |
| UTTT.HasMacroLine | UTTT.cpp:63-71 | true iff some winning line of the macro board is all the mover's |
| UTTT.Next | UTTT.cpp:32-77 | the move's cell holds the mover and nothing else on the grid changes; the round advances after X; the turn flips between X and O; a new winner is the mover, from round 9 on, with a macro line; the other fields are unchanged |
| UTTT.DoMove | UTTT.cpp:32-77 | the method computes `Next` |
| UTTT.NextFields | UTTT.cpp:32-77 | a state agreeing with each field of the move's outcome is that outcome |
| UTTT.PlaceMark | UTTT.cpp:44-49 | the cell is written and the sub-board marked when the mover has just won it |
| UTTT.CellMoves | UTTT.cpp:91-93 | the empty cells of sub-board `mb` below `n`, all of them, as moves in cell order |
| UTTT.BoardMovesAreLegal | UTTT.cpp:84-94 | every move of the first `n` sub-boards is on an Active sub-board and an empty cell |
| UTTT.BoardMovesAreAll | UTTT.cpp:84-94 | every empty cell of an Active sub-board below `n` is listed |
| UTTT.BoardMovesAreRanked | UTTT.cpp:84-94 | the moves are in (sub-board, cell) order |
| UTTT.LegalMoves | UTTT.cpp:79-97 | a move is legal iff there is no winner, its sub-board is Active and its cell empty; in (sub-board, cell) order |
| UTTT.GetMoves | UTTT.cpp:79-97 | the loops compute `LegalMoves` |
| UTTT.AddCellMoves | UTTT.cpp:91-93 | the inner loop appends the empty cells of one sub-board |
| UTTT.PlayedMoveIsNoLongerLegal | UTTT.cpp:32-97 | once played, a move is no longer legal |
| UTTT.MacroMarkFollowsSubWinner | UTTT.cpp:48-49 | the sub-board is newly marked for the mover only when the mover won it, and is marked whenever the mover won it |
| UTTT.SendToRule | UTTT.cpp:51-57 | a finished destination opens every undecided sub-board; otherwise only the destination becomes Active; a sub-board that was Active stays Active |
| UTTTGame.ClearActive | UTTTGame.cpp:61-63 | every Active sub-board becomes None, all others keep their status |
| UTTTGame.SendTo | UTTTGame.cpp:53-65 | a destination that is won or full opens every undecided sub-board; otherwise the destination is the only Active sub-board and the decided ones keep their status |
| UTTTGame.ActivateNext | UTTTGame.cpp:53-65 | the loops compute `SendTo` |
| UTTTGame.LostBelowBound | UTTTGame.cpp:89-107 | the opponent loses no more lines than pass through the sub-board played in |
| UTTTGame.ThroughAllLines | UTTTGame.cpp:89-107 | counting over all eight lines gives the number of lines through the cell |
| UTTTGame.LineLostMeansThroughAndOpen | UTTTGame.cpp:92-106 | the positional test of the loop body holds iff the line passes through the sub-board and its other two sub-boards are open for the opponent |
| UTTTGame.LostBelowCountsLostLines | UTTTGame.cpp:89-107 | the decrement count equals the number of lines through the sub-board whose other sub-boards are open for the opponent |
| UTTTGame.PotentialWins | UTTTGame.cpp:83-110 | only the played sub-board's entry can change, and it changes iff it was open for the opponent and the recomputed winnability differs; `winsOpp` then drops by the lost lines, at most the lines through it, and is otherwise unchanged |
| UTTTGame.UpdatePotentialWins | UTTTGame.cpp:83-110 | the method computes `PotentialWins` |
| UTTTGame.DropLostLines | UTTTGame.cpp:88-107 | the loop over `wins` subtracts exactly the lost lines |
| UTTTGame.Next | UTTTGame.cpp:34-116 | the cell write and frame, round, turn and winner rules of `UTTT.Next`, `subGamesWinnableBy` unchanged away from the played sub-board, `winsMe` unchanged and `winsOpp` dropping by at most 4 |
| UTTTGame.DoMove | UTTTGame.cpp:34-116 | the method computes `Next` |
| UTTTGame.GetMoves | UTTTGame.cpp:118-136 | a move is listed iff there is no winner, its sub-board is Active and its cell empty, in (sub-board, cell) order |
| UTTTGame.SentToOneBoard | UTTTGame.cpp:59-65 | after a move to an unfinished, non-full destination every legal move lies in that destination |
| Minimax.Search | TreeSearch.h:34-71 | the alpha-beta call as the source runs it, with at least one node counted |
| Minimax.Scan | TreeSearch.h:51-68 | the child loop with its cut-off, counting at least the nodes already counted |
| Minimax.ExtremeCovers | TreeSearch.h:52-67 | every child's minimax value is bounded by the best (or worst) over any prefix of children containing it |
| Minimax.SearchAgrees | TreeSearch.h:34-71 | fail-hard soundness: inside the window the search returns the minimax value exactly; at or below `alpha` it returns at most `alpha`; at or above `beta` at least `beta` |
| Minimax.ScanAgreesMax | TreeSearch.h:52-59 | the maximizing loop, with `alpha` raised to the best so far, agrees with the best child value over the original window |
| Minimax.ScanAgreesMin | TreeSearch.h:60-67 | the minimizing loop, with `beta` lowered to the worst so far, agrees with the worst child value over the original window |
| Minimax.SearchBounded | TreeSearch.h:34-71 | with every evaluation and the window inside [lo, hi], so is the search's score |
| Minimax.ScanBounded | TreeSearch.h:51-68 | the same bound for the child loop |
| Minimax.ValueBounded | TreeSearch.h:34-71 | with every evaluation inside [lo, hi], so is the minimax value |
| Minimax.ExtremeBounded | TreeSearch.h:52-67 | the best (or worst) child value stays inside [lo, hi] |
| Minimax.ExhaustiveWindow | TreeSearch.h:34-71 | when every evaluation lies in the window [worstVal, bestVal] the pruned search returns exactly the minimax value |
| Minimax.CutShortOnlyWhenTruncated | TreeSearch.h:45-48 | the search reports itself cut short only when some node with children sits at the depth limit |
| Minimax.ScanFull | TreeSearch.h:51-68 | the child loop stays complete when no child subtree reaches the depth limit |
| TreeSearch.MiniMaxAB | TreeSearch.h:34-71 | the recursion returns the score of `Search` and clears the full-tree flag exactly when `Search` was cut short; a leaf is its evaluation with the flag untouched; a depth-0 node with children is its evaluation with the flag cleared |
| TreeSearch.ScanChildren | TreeSearch.h:51-68 | the child loop of the recursion computes `Scan` |
| MiniMaxSearch.MarkingInvertsOutcomes | MiniMaxSearch.h:98-102 | from depth 3 on, a score of +1 is kept as 1 - depth, at most -2, and -1 as depth - 1, at least 2, so the marked scores order win < draw < loss |
| MiniMaxSearch.MarkedIntended | MiniMaxSearch.h:100-101 | the marking the comments describe: a win stays at least 1, a loss at most -1, anything else unchanged |
| MiniMaxSearch.IntendedMarkingKeepsOutcomes | MiniMaxSearch.h:100-101 | the intended marking orders loss < draw < win at every depth and ranks a nearer win higher and a nearer loss lower |
| MiniMaxSearch.TotalNodes | MiniMaxSearch.h:72-73 | searching every child counts at least one node per child |
| MiniMaxSearch.HistoryStep | MiniMaxSearch.h:92-103 | a visit keeps the deepening history: the visited child settles at this depth iff its search completed or scored non-zero, otherwise it records one more cut-short zero search; no other child changes |
| MiniMaxSearch.HistoryWrap | MiniMaxSearch.h:104-110 | passing the last child starts the next depth at the first child |
| MiniMaxSearch.SpentDiffers | MiniMaxSearch.h:92-101 | two search histories that agree on every child but one differ in calls spent by that child's alone |
| MiniMaxSearch.SpentAtStart | MiniMaxSearch.h:82-90 | before the first visit no call has been spent |
| MiniMaxSearch.SpentStep | MiniMaxSearch.h:94-101 | a visit adds to the calls spent exactly its own search on an unsettled child, and nothing on a settled one |
| MiniMaxSearch.SpentWrap | MiniMaxSearch.h:104-110 | moving to the next depth changes no call spent |
| MiniMaxSearch.RoundsArePasses | MiniMaxSearch.h:104-110 | `r` full rounds over `n` children are `r * n` visits |
| MiniMaxSearch.ScoresAreValues | MiniMaxSearch.h:72-73 | with every evaluation in [-1, 1], each score searched in the window [-1, 1] is the child's minimax value |
| MiniMaxSearch.PassesInRound | MiniMaxSearch.h:104-110 | the visit count after `r` rounds and `c` more visits lies in round `r` |
| MiniMaxSearch.MiniMaxSearch.constructor | MiniMaxSearch.h:47-61 | the two function pointers are stored, no node counted, search depth 2, no complete search |
| MiniMaxSearch.MiniMaxSearch.MiniMaxAB | MiniMaxSearch.h:126-166 | returns the score of `Search`, adds the nodes it visits to `nodesTraversed`, and clears `fullSearchDone` exactly when the search was cut short at the depth limit |
| MiniMaxSearch.MiniMaxSearch.SearchChildren | MiniMaxSearch.h:146-163 | the child loop computes `Scan`, with the same node count and flag effect |
| MiniMaxSearch.MiniMaxSearch.EvaluateBranch | MiniMaxSearch.h:63-76 | one score per child, each the minimizing search at `maxDepth` in [-1, 1]; `fullSearchDone` iff every child's search was complete; the node count of all those searches; with evaluations in [-1, 1] each score is the minimax value |
| MiniMaxSearch.MiniMaxSearch.Visit | MiniMaxSearch.h:93-103 | a settled child is not searched again and keeps its score; an unsettled one is searched and settles iff the search completed or scored non-zero, with its score marked; no other child changes |
| MiniMaxSearch.MiniMaxSearch.Advance | MiniMaxSearch.h:92-111 | one loop step keeps the scores and the history, and moves the pointer to the next child, or to the first one a level deeper after the last |
| MiniMaxSearch.MiniMaxSearch.EvaluateBranchUntilTimeout | MiniMaxSearch.h:78-124 | one score per child, a settled child's marked score and 0 for the others; a child settles at the first depth its search completes or scores non-zero, and an unsettled child was cut short with a zero score at every depth it was visited at; the loop stops early only when every child is settled, and never makes more visits than the steps allow (at least one); `fullSearchDone` iff every child settled; `nodesTraversed`, reset to 0, ends as the calls of one search per child at every depth from 3 until it settled |
| MiniMaxSearch.MiniMaxSearch.Deepen | MiniMaxSearch.h:89-117 | the do-while loop from depth 3 keeps the score, history and node-count invariants, stops early only when every child is settled, and makes at most `steps` visits (one when `steps` is 0) |
| MiniMaxSearch.MiniMaxSearch.GetLastSearchFullyEvaluated | MiniMaxSearch.h:168-172 | returns the completeness flag of the last search |
| MiniMaxSearch.MiniMaxSearch.GetLastSearchNumNodesTraversed | MiniMaxSearch.h:174-178 | returns the node count of the last search |
| MiniMaxSearch.MiniMaxSearch.GetLastSearchDepth | MiniMaxSearch.h:180-184 | returns the depth the last search stopped at |
| UTTTAI.EvaluateState | UTTTAI.cpp:10-16 | +1 iff the winner is the bot, 0 iff there is no winner, -1 iff the opponent (or anyone else) won |
| UTTTAI.EvaluationChangesOnlyByWinning | UTTTAI.cpp:10-16 | a move changes the evaluation only by making the mover the winner |
| UTTTAI.Children | UTTTAI.cpp:18-27 | one child per legal move, child `k` being the state after move `k` |
| UTTTAI.ChildrenAreOneMoveApart | UTTTAI.cpp:18-27 | a state with children has no winner, and each child differs from it only in the one cell its move fills with the mover's mark |
| UTTTAI.GetChildStates | UTTTAI.cpp:18-27 | the loop computes `Children` |
| UTTTAI.MaxOf | UTTTAI.cpp:303-307 | an upper bound of the ratings that is one of them |
| UTTTAI.IndicesOf | UTTTAI.cpp:309-310 | the indices below `n` holding `x`, all of them, ascending |
| UTTTAI.BestIndices | UTTTAI.cpp:301-313 | non-empty, ascending, and an index is listed iff its rating is the maximum |
| UTTTAI.GuardNeverBlocks | UTTTAI.cpp:185 | the first best index is never -20, so the guard `bestMoves[0] != -20` never holds back the tie-break |
| UTTTAI.BestRatingIndicesOfList | UTTTAI.cpp:301-313 | the two loops compute `BestIndices` |
| UTTTAI.BestRating | UTTTAI.cpp:303-307 | the first loop computes the maximum |
| UTTTAI.IndicesRated | UTTTAI.cpp:309-310 | the second loop collects the indices of the maximum |
| UTTTAI.Pick | UTTTAI.cpp:315-322 | one element per index |
| UTTTAI.PickValuesAtIndicesOfList | UTTTAI.cpp:315-322 | the loop computes `Pick` |
| UTTTAI.PickTwice | UTTTAI.cpp:92 | picking twice with ascending indices is one pick with ascending composed indices |
| UTTTAI.LineRelevance | UTTTAI.cpp:216-260 | a macro line adds its three indices or nothing to each list, and nothing when one of its sub-boards can be won by nobody |
| UTTTAI.Relevant | UTTTAI.cpp:216-261 | both lists are made of whole lines, three indices per line, at most three per line scanned |
| UTTTAI.RelevantCountBound | UTTTAI.cpp:216-266 | an index occurs in each list at most as often as lines pass through it |
| UTTTAI.RelevantIndicesLieOnLiveLines | UTTTAI.cpp:221 | every listed index lies on a macro line none of whose sub-boards is unwinnable |
| UTTTAI.SharedLinesCountForBoth | UTTTAI.cpp:222-232 | a macro line all of whose sub-boards can be won by both players puts its indices in both lists |
| UTTTAI.MovesRemaining | UTTTAI.cpp:204-206 | the legal moves summed over the sub-boards, at most 9 per sub-board |
| UTTTAI.Assess | UTTTAI.cpp:199-289 | the assessment keeps the state, at most 81 moves remain, and each relevance list holds whole lines, at most 24 indices |
| UTTTAI.WorthsBoundedByLines | UTTTAI.cpp:265-266 | each offensive and defensive worth lies between 0 and the number of macro lines through the sub-board |
| UTTTAI.AssessState | UTTTAI.cpp:199-289 | the method computes `Assess` |
| UTTTAI.CountMovesRemaining | UTTTAI.cpp:204-206 | the loop computes the moves remaining |
| UTTTAI.MinimumMovesPerBoard | UTTTAI.cpp:208-209 | each sub-board's fewest moves to win for the given player |
| UTTTAI.WinnabilityPerBoard | UTTTAI.cpp:212 | each sub-board's winnability class |
| UTTTAI.Occurrences | UTTTAI.cpp:265-266 | each sub-board's occurrence count in a relevance list |
| UTTTAI.RelevantMacroIndices | UTTTAI.cpp:216-261 | the loop over the macro lines computes `Relevant` |
| UTTTAI.RelevanceOfLine | UTTTAI.cpp:217-260 | the loop body computes `LineRelevance` |
| UTTTAI.MinimumMovesToLines | UTTTAI.cpp:269-284 | each macro line's need: the sum of its sub-boards' needs when all three are listed, else 0 |
| UTTTAI.RateByPosition | UTTTAI.cpp:29-45 | the position rating is -1, 0, 1 or 2 |
| UTTTAI.RateByPositionMeaning | UTTTAI.cpp:29-45 | -1 iff the destination has no legal move; otherwise 0 iff both sides have a free line there, 1 iff exactly one side does, 2 iff neither does |
| UTTTAI.MacroRelevanceBound | UTTTAI.cpp:291-299 | a move's macro relevance lies between 0 and twice the number of macro lines through its sub-board |
| UTTTAI.NextBoardRatingBounds | UTTTAI.cpp:158-178 | the first rating is -20 iff the destination, after the move when it is played into itself, has no legal move; otherwise it loses at most two points per line through the destination, so it lies between -8 and 0 |
| UTTTAI.RatingsBelow | UTTTAI.cpp:134-152 | one rating per move, each the stage's rating of that move |
| UTTTAI.NextBoardBase | UTTTAI.cpp:158-179 | one first rating per move |
| UTTTAI.BreakTies | UTTTAI.cpp:186-194 | each best-rated move gains the opponent's fewest moves to win its destination and loses the bot's; the rest keep their rating |
| UTTTAI.NextBoardRatingsAsWritten | UTTTAI.cpp:154-197 | one rating per move, the tie-break applied whenever more than one move is rated best |
| UTTTAI.NextBoardRatings | UTTTAI.cpp:181-194 | one rating per move, the tie-break applied only when the best rating is not -20 |
| UTTTAI.AsWrittenRanksFreeChoices | UTTTAI.cpp:185 | as written, when several moves tie at -20 the first of them is still re-rated |
| UTTTAI.NextBoardRatingsKeepFreeChoices | UTTTAI.cpp:184-194 | with the intended guard, a move rated -20 stays -20 and a move not rated best keeps its first rating |
| UTTTAI.RateMovesByTTTStrats | UTTTAI.cpp:134-142 | one rating per move, each the sub-board tactics score |
| UTTTAI.RateMovesByPosition | UTTTAI.cpp:144-152 | one rating per move, each the position rating |
| UTTTAI.RateMovesByMacroRelevance | UTTTAI.cpp:291-299 | one rating per move, each its sub-board's offensive plus defensive worth |
| UTTTAI.RateMacroRelevance | UTTTAI.cpp:295-296 | the loop body's rating of one move |
| UTTTAI.RateMovesByNextBoardPosition | UTTTAI.cpp:154-197 | the ratings are those of the code as written, guard included |
| UTTTAI.FirstNextBoardRatings | UTTTAI.cpp:158-179 | the first loop computes the first ratings |
| UTTTAI.RateNextBoard | UTTTAI.cpp:159-178 | the loop body's first rating of one move |
| UTTTAI.BreakBestTies | UTTTAI.cpp:188-193 | the tie-break loop computes `BreakTies` |
| UTTTAI.RateMovesByMiniMaxAB | UTTTAI.cpp:111-132 | all 0 before round 9; from round 9 on one rating per child of the state, each 0 or the child's marked score at the first depth its search completed or scored non-zero, every earlier search having been cut short at 0 |
| UTTTAI.StageRatings | UTTTAI.cpp:52-74 | each deterministic stage gives one rating per move |
| UTTTAI.KeepRated | UTTTAI.cpp:92 | at most one kept move per move looked at |
| UTTTAI.KeptAreRated | UTTTAI.cpp:92 | every kept move is a move rated `x`, at an index below `n` |
| UTTTAI.KeepRatedNonEmpty | UTTTAI.cpp:92 | some move is kept when one is rated `x` |
| UTTTAI.PickIndicesIsKeep | UTTTAI.cpp:92 | picking the indices rated `x` keeps exactly the moves rated `x`, in order |
| UTTTAI.Keep | UTTTAI.cpp:91-92 | a stage keeps at least one move and no more than it was given |
| UTTTAI.KeptFrom | UTTTAI.cpp:91-92 | each kept move was given to the stage and rated best by it |
| UTTTAI.SurvivorsAfter | UTTTAI.cpp:89-103 | at least one move survives any number of stages |
| UTTTAI.SurvivorsNarrow | UTTTAI.cpp:89-103 | a move left after `n` stages was left after every earlier stage |
| UTTTAI.SurvivorsStep | UTTTAI.cpp:91-102 | while more than one move is left, the next stage keeps its best-rated moves |
| UTTTAI.SurvivorsSettle | UTTTAI.cpp:97-101 | once a single move is left, later stages change nothing |
| UTTTAI.KeepIsPick | UTTTAI.cpp:92 | a stage's survivors are a pick at ascending indices |
| UTTTAI.SurvivorsSubsequence | UTTTAI.cpp:89-103 | the survivors after `n` stages are an order-preserving subsequence of those after any `m <= n` |
| UTTTAI.SelectChoosesAmong | UTTTAI.cpp:89-108 | the selected move is one of the moves |
| UTTTAI.SelectionKeepsSearchBest | UTTTAI.cpp:89-108 | the selected move has the highest search rating |
| UTTTAI.RateMovesAtStage | UTTTAI.cpp:91 | stage 0 gives the search ratings, the others their stage ratings |
| UTTTAI.RunStage | UTTTAI.cpp:91-92 | one stage keeps the moves its ratings rate best |
| UTTTAI.KeepBest | UTTTAI.cpp:92 | the best-rated moves, via the best indices and the pick |
| UTTTAI.FindBestMove | UTTTAI.cpp:47-109 | no move iff there is no legal move; otherwise a legal move; the only move when there is one; otherwise the first survivor of the five stages over the legal moves |
| UTTTAI.SelectMove | UTTTAI.cpp:89-108 | the stage loop returns the selected move |
| UTTTAI.StagedAtStart | UTTTAI.cpp:76-78 | before any stage every legal move is in the running |
| UTTTAI.StagedAtEnd | UTTTAI.cpp:105-108 | after all stages the first survivor is the selected move |
| UTTTAI.StageAdvance | UTTTAI.cpp:89-103 | one stage keeps at least one move and the stage invariant |
| LegacyUTTT.DefaultState | uttt.h:20-27 | every cell of the new state is empty and every sub-board is in play |
| LegacyUTTT.InConcat | uttt.cpp:45-50 | a player occurs in the row-major flattening iff some cell of the rows holds it |
| LegacyUTTT.CurrentPlayer | uttt.cpp:41-52 | O iff X has more marks on the grid than O, and X otherwise |
| LegacyUTTT.GetCurrentPlayer | uttt.cpp:41-52 | the counting loops compute `CurrentPlayer` |
| LegacyUTTT.SubBoardCells | uttt.cpp:54-79 | cell `i` of a sub-board is the grid cell `(3 row + i / 3, 3 col + i % 3)` |
| LegacyUTTT.StatusCases | uttt.cpp:54-79 | a sub-board's status is its winner when it has one; otherwise Active iff it has an empty cell and None iff it is full |
| LegacyUTTT.FirstCompleteLineWins | uttt.cpp:56-73 | the first complete line in table order decides the sub-board's winner |
| LegacyUTTT.SubBoardRow | uttt.cpp:56-60 | the row test on grid cells is the completeness of the sub-board's row line |
| LegacyUTTT.SubBoardColumn | uttt.cpp:61-65 | the column test on grid cells is the completeness of the sub-board's column line |
| LegacyUTTT.SubBoardDiagonals | uttt.cpp:66-73 | the two diagonal tests on grid cells are the completeness of the sub-board's diagonals |
| LegacyUTTT.GetSubWinner | uttt.cpp:54-79 | the line tests and the empty-cell scan compute the sub-board's status |
| LegacyUTTT.HasEmptyCell | uttt.cpp:74-77 | true iff some cell of the sub-board is empty |
| LegacyUTTT.FirstDecided | uttt.cpp:111-132 | None iff no macro line from `w` on is decided; otherwise the value, neither None nor Active, of the first decided one |
| LegacyUTTT.ChildWinner | uttt.cpp:134-147 | the flat-board line tests give TTT.cpp's winner |
| LegacyUTTT.LineTests | uttt.cpp:136-145 | each of the eight index tests is the completeness of the matching winning line |
| LegacyUTTT.RecomputeMacroboard | uttt.cpp:90-94 | the loops set each macro cell to its sub-board's status |
| LegacyUTTT.StatusAt | uttt.cpp:92 | macro cell `3 r + c` is the status of sub-board `(r, c)` |
| LegacyUTTT.CountEmpty | uttt.cpp:96-100 | the number of empty cells on the grid |
| LegacyUTTT.Write | uttt.cpp:89 | the mark lands on the move's cell and every other cell is unchanged |
| LegacyUTTT.Home | uttt.cpp:85 | a move on the grid lies in one of the nine sub-boards |
| LegacyUTTT.Destination | uttt.cpp:102 | a move on the grid sends to one of the nine sub-boards |
| LegacyUTTT.Narrow | uttt.cpp:102-106 | an undecided destination leaves only it in play, and only while the game goes on; a decided one changes nothing; decided sub-boards keep their status |
| LegacyUTTT.NarrowMacroboard | uttt.cpp:102-106 | the loops compute `Narrow` |
| LegacyUTTT.Next | uttt.cpp:81-109 | a move into a sub-board not in play changes nothing; otherwise the mover's mark is written at the move |
| LegacyUTTT.DoMove | uttt.cpp:81-109 | the method computes `Next` |
| LegacyUTTT.EmptyCount | uttt.cpp:96-101 | the empty-cell count is positive iff the grid has an empty cell |
| LegacyUTTT.NextMacroboard | uttt.cpp:90-106 | after a valid move decided sub-boards show their winner or None, and an undecided destination while the game goes on is the only sub-board in play |
| LegacyUTTT.RowMovesAreLegal | uttt.cpp:153-158 | each move listed for a row is a playable cell of that row |
| LegacyUTTT.RowMovesAreAll | uttt.cpp:153-158 | every playable cell of the row is listed |
| LegacyUTTT.RowMovesAreOrdered | uttt.cpp:153-158 | a row's moves are listed left to right |
| LegacyUTTT.ExtendRow | uttt.cpp:155-156 | one more column appends its cell exactly when it is playable |
| LegacyUTTT.OrderedConcat | uttt.cpp:153-158 | appending later rows keeps the row-major order |
| LegacyUTTT.RowsMovesAreLegal | uttt.cpp:153-159 | each listed move is a playable cell of the scanned rows |
| LegacyUTTT.RowsMovesAreAll | uttt.cpp:153-159 | every playable cell of the scanned rows is listed |
| LegacyUTTT.RowsMovesAreOrdered | uttt.cpp:153-159 | the moves are listed in row-major order |
| LegacyUTTT.LegalMoves | uttt.cpp:149-162 | a move is listed iff the game has no macro winner and the move is an empty cell of a sub-board in play; in row-major order |
| LegacyUTTT.GetMoves | uttt.cpp:149-162 | the loops compute `LegalMoves` |
| LegacyUTTT.DefaultStateOffersEveryCell | uttt.h:20-27 | the new state offers all 81 cells |
| LegacyUTTTAI.EvaluateState | utttai.cpp:252-258 | +50 iff the macro winner is the given player, 0 iff there is none, -50 iff someone else won |
| LegacyUTTTAI.EvaluationIsZeroSum | utttai.cpp:252-258 | without a shared win, X's evaluation is the negation of O's |
| LegacyUTTTAI.EvaluateMicroState | utttai.cpp:261-269 | +10 iff the player won the sub-board; 0 iff nobody won it and the player can still win it; -10 otherwise |
| LegacyUTTTAI.EvaluateNextPossibilities | utttai.cpp:272-297 | negative iff either side has a setup on the destination or it has no move; otherwise 5 iff nobody can win it, 1 iff exactly one side can, 0 iff both can; between -9 and 5 |
| LegacyUTTTAI.ChildStates | utttai.cpp:300-306 | one child per legal move, child `k` being the state after move `k`; the older bot's `GetChildStates` at utttbot.cpp:205-211 has the same body, and the bot's searches use this function for it |
| LegacyUTTTAI.GetChildStates | utttai.cpp:300-306 | the loop computes `ChildStates` |
| LegacyUTTTAI.ChildAt | utttai.cpp:304 | the state after legal move `i` is child `i` |
| LegacyUTTTAI.Micro | utttai.cpp:310-334 | the nine cells of the sub-board the move is in, or of the one it sends to, in row-major order |
| LegacyUTTTAI.GetMicroState | utttai.cpp:310-334 | the method computes `Micro` |
| LegacyUTTTAI.ReadSubBoard | utttai.cpp:324-331 | the copy loops read the sub-board at the given corner |
| LegacyUTTTAI.Cleaned | utttai.cpp:353-362 | an in-play macro cell becomes None, X and O stay, and a drawn one (None) is read as Active, the default of the fresh state |
| LegacyUTTTAI.ScanLine | utttai.cpp:368-377 | the open cells collected grow by at most the cells scanned and are all open |
| LegacyUTTTAI.Contribution | utttai.cpp:364-384 | a macro line contributes at most its own cells, all open |
| LegacyUTTTAI.PreferredBelow | utttai.cpp:364-385 | the lines scanned so far contribute at most three open cells each |
| LegacyUTTTAI.BlockedScanCountsNothing | utttai.cpp:373-375 | a line holding an opposing or drawn sub-board counts 0 |
| LegacyUTTTAI.ClearScanCounts | utttai.cpp:368-377 | a line not blocked counts the player's sub-boards and collects its open ones |
| LegacyUTTTAI.LineContribution | utttai.cpp:379-384 | a line contributes its open cells iff it is not blocked, holds exactly `num` of the player's sub-boards and has an open cell |
| LegacyUTTTAI.PreferredMacroBoards | utttai.cpp:337-388 | at most 24 preferred sub-boards, each one still in play |
| LegacyUTTTAI.GetPreferredMacroBoards | utttai.cpp:337-388 | the method computes `PreferredMacroBoards` |
| LegacyUTTTAI.CollectPreferred | utttai.cpp:364-385 | the loop over the lines collects the preferred sub-boards |
| LegacyUTTTAI.PreferredStep | utttai.cpp:379-384 | one more line appends its open cells exactly when its count is `num` and it has one |
| LegacyUTTTAI.CleanMacroboard | utttai.cpp:353-362 | the loops compute `Cleaned` |
| LegacyUTTTAI.ScanWin | utttai.cpp:365-377 | the inner loop computes `ScanLine` |
| LegacyUTTTAI.AlignmentSum | utttai.cpp:146-227 | lower bounds on a run of alignment adjustments, and no gain when bonuses are not positive |
| LegacyUTTTAI.SetupBonusAsWritten | utttai.cpp:133-134 | as written the bonus is 5 iff the move leaves the player a setup, whether or not one was there before |
| LegacyUTTTAI.SetupBonus | utttai.cpp:132-134 | the intended bonus: 5 iff the move creates a setup that was not there before; 0 when one was |
| LegacyUTTTAI.SetupBonusAsWrittenRewardsOldSetups | utttai.cpp:133 | with a setup before and after, the code as written awards 5 where the intended bonus is 0 |
| LegacyUTTTAI.BaseRating | utttai.cpp:126-139 | the sub-board, destination and setup scores add up to between -19 and 23 |
| LegacyUTTTAI.RatingFloor | utttai.cpp:122-229 | a move's rating is bounded below in terms of the preferred-board list sizes |
| LegacyUTTTAI.MicroRatingFloor | utttai.cpp:113 | every move rates above the starting -999 |
| LegacyUTTTAI.AddAlignments | utttai.cpp:146-227 | a loop over preferred boards adds `AlignmentSum` |
| LegacyUTTTAI.ReadSituation | utttai.cpp:123-143 | the boards before and after the move read by the rating |
| LegacyUTTTAI.RateMove | utttai.cpp:122-229 | the loop body computes the move's rating |
| LegacyUTTTAI.RateSituation | utttai.cpp:126-227 | the rating from the boards read |
| LegacyUTTTAI.RatePreferred | utttai.cpp:146-193 | the preferred-board adjustments |
| LegacyUTTTAI.RateLessPreferred | utttai.cpp:196-227 | the less-preferred adjustments |
| LegacyUTTTAI.RateBase | utttai.cpp:126-139 | the method computes `BaseRating` |
| LegacyUTTTAI.RatingsFrom | utttai.cpp:122 | one rating per move |
| LegacyUTTTAI.MicroRatings | utttai.cpp:122-229 | one rating per move |
| LegacyUTTTAI.RatingsFromAt | utttai.cpp:122 | rating `j` is the rating of move `j` |
| LegacyUTTTAI.MicroRatingsFloor | utttai.cpp:113 | every rating is above -999 |
| LegacyUTTTAI.KeepRatedAbove | utttai.cpp:61-69 | nothing is kept when every rating is below the one asked for |
| LegacyUTTTAI.KeepRatedKeeps | utttai.cpp:61-69 | every move with the rating asked for is kept |
| LegacyUTTTAI.KeepBestMeaning | utttai.cpp:61-69 | the best moves are non-empty iff there are moves; each is a move of highest rating; every move of highest rating is among them |
| LegacyUTTTAI.TrackStep | utttai.cpp:62-68 | one step of the highest-so-far scan keeps the tracking invariant |
| LegacyUTTTAI.Admit | utttai.cpp:233-240 | admitting one more rated move keeps the tracking invariant |
| LegacyUTTTAI.TrackedIsKeepBest | utttai.cpp:61-69 | a tracked scan over all moves has kept exactly the best moves |
| LegacyUTTTAI.GetPreferences | utttai.cpp:116-119 | the four preferred-board lists |
| LegacyUTTTAI.EvaluateBestMoves | utttai.cpp:108-249 | the moves of highest rating among the given ones |
| LegacyUTTTAI.RateMoves | utttai.cpp:122-229 | the loop rates every given move |
| LegacyUTTTAI.KeepHighest | utttai.cpp:231-240 | the highest-so-far scan, starting from -999, keeps the best moves |
| LegacyUTTTAI.SearchRatingIsMinimax | utttai.cpp:32-33 | a move's search rating is the depth-limited minimax value of its child, between -50 and 50 |
| LegacyUTTTAI.FirstPass | utttai.cpp:30-40 | one rating per move |
| LegacyUTTTAI.FirstWin | utttai.cpp:34-37 | the first index from `k` on rated at least +1, or the length when there is none |
| LegacyUTTTAI.PickBestIsTop | utttai.cpp:81-84 | the chosen secondary move is one of them and no secondary move rates higher |
| LegacyUTTTAI.KeepBestIn | utttai.cpp:59-69 | the best moves are non-empty moves of the list |
| LegacyUTTTAI.DecideIsAmong | utttai.cpp:8-105 | no move iff there are no moves; otherwise one of them |
| LegacyUTTTAI.DecideTakesFirstWin | utttai.cpp:34-37 | with several moves, the first rated +1 or more is chosen |
| LegacyUTTTAI.DecideIsTopRated | utttai.cpp:57-96 | without a winning move the choice has the highest search rating and the highest secondary rating among those |
| LegacyUTTTAI.RatedAtMost | utttai.cpp:122-240 | comparing the computed ratings compares the moves' ratings |
| LegacyUTTTAI.ChoiceIsLegal | utttai.cpp:8-105 | no move iff no legal move; otherwise a legal move |
| LegacyUTTTAI.ChoiceTakesFirstWin | utttai.cpp:30-37 | the first legal move whose first-pass rating is a win is chosen |
| LegacyUTTTAI.ChoiceIsTopRated | utttai.cpp:57-96 | without a winning move the choice is top rated by the search and then by the secondary rating |
| LegacyUTTTAI.ChoiceIsDecide | utttai.cpp:8-105 | the choice decides over the legal moves and their first-pass ratings |
| LegacyUTTTAI.KeepTopRated | utttai.cpp:59-69 | the highest-so-far scan keeps the best moves |
| LegacyUTTTAI.RateChild | utttai.cpp:31-33 | the move's search rating and whether its tree was exhausted |
| LegacyUTTTAI.SearchPass | utttai.cpp:28-40 | a pass returns the first winning move, or appends one rating per move to the earlier ones, those of the first pass |
| LegacyUTTTAI.SearchPasses | utttai.cpp:21-55 | the first winning move of the first pass, or none, and then the first pass's ratings lead the list |
| LegacyUTTTAI.FindBestMove | utttai.cpp:8-105 | the method computes `Choice` |
| LegacyUTTTAI.SelectAfterSearch | utttai.cpp:57-96 | without a winning move, the move `Decide` chooses |
| LegacyUTTTAI.ChooseAmongBest | utttai.cpp:74-91 | the secondary evaluation's pick among the best moves |
| Protocol.PieceEnd | UTTTBot.cpp:144 | the end of the piece starting at `i`: the next delimiter or the end of the line |
| Protocol.PieceEndIsFirst | UTTTBot.cpp:144 | no delimiter occurs before the end of the piece |
| Protocol.PiecesFrom | UTTTBot.cpp:138-147 | there is at least one piece iff text is left to read |
| Protocol.PiecesFromAreRuns | UTTTBot.cpp:144 | no piece holds the delimiter |
| Protocol.JoinPiecesFrom | UTTTBot.cpp:138-147 | joining the pieces with the delimiter gives the rest of the line less one trailing delimiter |
| Protocol.JoinPieces | UTTTBot.cpp:138-147 | splitting loses only a final delimiter: joining the pieces gives back the line without it |
| Protocol.PiecesOfJoin | UTTTBot.cpp:138-147 | splitting the join of delimiter-free pieces, the last one non-empty, gives back the pieces |
| Protocol.Split | UTTTBot.cpp:138-147 | the `getline` loop computes `Pieces` |
| Protocol.ReadItem | UTTTBot.cpp:144 | one `getline` reads up to the next delimiter and skips it |
| Protocol.Decimal | UTTTBot.cpp:69 | a run of digits reads as a non-negative number |
| Protocol.Stoi | UTTTBot.cpp:69 | a number is read only from text holding a digit, and only when it fits a 32-bit `int` |
| Protocol.DecimalOfDigits | UTTTBot.cpp:69 | the digits of `n` read back as `n` |
| Protocol.StoiShow | UTTTBot.cpp:69 | reading a number written in decimal, followed by anything but a digit, gives the number back |
| UTTTBot.FieldToken | UTTTBot.cpp:77-79 | "0" is O, "1" is X, anything else an empty cell |
| UTTTBot.MacroToken | UTTTBot.cpp:105-113 | "-1" is in play, "0" is O, "1" is X, anything else None |
| UTTTBot.FieldIndexOf | UTTTBot.cpp:75-77 | sub-board `mb`, cell `md` is read from position `9 r + c` iff it is the grid cell at row `r`, column `c` |
| UTTTBot.FieldIndexIsBijection | UTTTBot.cpp:73-82 | the 81 positions of the field line map one to one onto the sub-board cells |
| UTTTBot.DecodeFieldAgreesWithMoves | UTTTBot.cpp:73-82 | the decoded cell a move addresses is the token at its row-major position |
| UTTTBot.FieldStep | UTTTBot.cpp:75-79 | one loop step writes one token to the cell its position names |
| UTTTBot.OpenLines | UTTTBot.cpp:90-99 | at most one open line per line scanned |
| UTTTBot.WinsMe | UTTTBot.cpp:89-99 | the bot's count of lines open to it lies between 0 and the lines scanned |
| UTTTBot.WinsOpp | UTTTBot.cpp:89-99 | the two counts together are the lines open to X plus those open to O, at most twice the lines scanned |
| UTTTBot.ClosedBoardBelow | UTTTBot.cpp:90-99 | a sub-board closed to a player closes every line through it |
| UTTTBot.WonBoardClosesLines | UTTTBot.cpp:90-99 | a sub-board closed to a player leaves at most 8 minus its lines open to them |
| UTTTBot.AllLinesOpen | UTTTBot.cpp:90-99 | when every sub-board can be won by both, every line is open |
| UTTTBot.EmptyFieldCountsEight | UTTTBot.cpp:71-99 | an empty field with no won sub-board leaves every sub-board winnable by both and eight lines open to each side |
| UTTTBot.EmptyFieldIsOpen | UTTTBot.cpp:83-88 | on an empty field every sub-board not won is winnable by both |
| UTTTBot.PlayerOf | UTTTBot.cpp:133 | bot id 0 plays O and any other id X |
| UTTTBot.SidesDiffer | UTTTBot.cpp:133-134 | the bot and its opponent are X and O in some order |
| UTTTBot.ReadField | UTTTBot.cpp:72-82 | the loops replace the sub-boards by the decoded field and nothing else |
| UTTTBot.FieldUpToAll | UTTTBot.cpp:73-82 | after all 81 tokens the sub-boards are the decoded field, whatever they held |
| UTTTBot.FieldUpToNone | UTTTBot.cpp:73 | before any token nothing has changed |
| UTTTBot.RecomputeWinnability | UTTTBot.cpp:83-88 | each sub-board's winnability is its macro mark when X or O, else its open-line class; nothing else changes |
| UTTTBot.CountWins | UTTTBot.cpp:89-99 | the two line counts are recomputed from zero and nothing else changes |
| UTTTBot.ReadMacroboard | UTTTBot.cpp:103-114 | the loop replaces the macro board by the decoded tokens and nothing else |
| UTTTBot.UTTTBot.constructor | UTTTBot.h:12-20 | a bot starts from the default state with zero numbers and empty names |
| UTTTBot.UTTTBot.Update | UTTTBot.cpp:66-116 | "round" sets the round in the bot and the state, or fails on a bad number; "field" decodes the cells and recomputes winnability and line counts; "macroboard" decodes the macro board; other keys change nothing |
| UTTTBot.UTTTBot.Setting | UTTTBot.cpp:118-136 | each setting key writes its own field, the bot id also the state's player and opponent; a bad number fails and changes nothing |
| LegacyUTTTBot.FieldToken | utttbot.cpp:47-53 | "0" is X, "1" is O, anything else an empty cell |
| LegacyUTTTBot.MacroToken | utttbot.cpp:65-73 | "-1" is in play, "0" is X, "1" is O, anything else None |
| LegacyUTTTBot.TokensSwapSides | utttbot.cpp:47-73 | the two generations read the same tokens with X and O exchanged |
| LegacyUTTTBot.FieldUpToNone | utttbot.cpp:43-46 | before any token nothing has changed |
| LegacyUTTTBot.FieldStep | utttbot.cpp:46-58 | token `9 r + c` is written at row `r`, column `c`, the counters wrapping after nine columns |
| LegacyUTTTBot.FullFieldReplacesGrid | utttbot.cpp:42-59 | 81 tokens replace the whole grid, whatever it held, each cell taking its row-major token |
| LegacyUTTTBot.ShortFieldKeepsRest | utttbot.cpp:46-59 | a short field line leaves the cells past its last token as they were |
| LegacyUTTTBot.FieldAgreesAcrossGenerations | utttbot.cpp:42-59 | the cell a move addresses is decoded from the same token by both generations, with the sides exchanged |
| LegacyUTTTBot.FullMacroReplacesBoard | utttbot.cpp:60-80 | nine tokens replace the whole macro board, entry `3 row + col` taking token `3 row + col` |
| LegacyUTTTBot.ReadField | utttbot.cpp:43-59 | the counter loop writes the decoded tokens row by row and changes nothing else |
| LegacyUTTTBot.ReadMacroboard | utttbot.cpp:61-79 | the counter loop writes the decoded tokens row by row and changes nothing else |
| LegacyUTTTBot.UTTTBot.constructor | utttbot.h:15-24 | a bot starts with `firstMove` set, the default state, zero numbers and empty names |
| LegacyUTTTBot.UTTTBot.Update | utttbot.cpp:39-81 | "round" sets the round or fails on a bad number; "field" and "macroboard" write their tokens row by row; every other field, `firstMove` included, is unchanged |
| LegacyUTTTBot.UTTTBot.Setting | utttbot.cpp:83-100 | each key writes its own field; `firstMove` afterwards holds iff it held before or the bot's name is the first player's name; the game state is never touched |
| LegacyUTTTBot.EvaluateState | utttbot.cpp:197-203 | +1 iff the macro winner is `positive`, 0 iff there is none, -1 otherwise |
| LegacyUTTTBot.EvaluationScales | utttbot.cpp:197-203 | the AI's evaluation is 50 times the bot's |
| LegacyUTTTBot.SearchRatingIsMinimax | utttbot.cpp:141-143 | a move's search rating is the depth-limited minimax value of its child, between -1 and 1 |
| LegacyUTTTBot.FirstPass | utttbot.cpp:140-150 | one rating per move |
| LegacyUTTTBot.FirstWin | utttbot.cpp:144-147 | the first index from `k` on rated exactly +1, or the length when there is none |
| LegacyUTTTBot.ChoiceIsDecide | utttbot.cpp:112-195 | the choice decides over the legal moves and their first-pass ratings |
| LegacyUTTTBot.DecideIsAmong | utttbot.cpp:126-127 | no move iff there are no moves; otherwise one of them |
| LegacyUTTTBot.DecideIsTopRated | utttbot.cpp:169-184 | without a winning move the chosen move has the highest rating |
| LegacyUTTTBot.ChoiceIsLegal | utttbot.cpp:112-195 | no move iff no legal move; otherwise a legal move |
| LegacyUTTTBot.ChoiceTakesFirstWin | utttbot.cpp:143-147 | the first legal move whose first-pass rating is +1 is chosen |
| LegacyUTTTBot.ChoiceIsTopRated | utttbot.cpp:169-184 | without a winning move the choice has the highest first-pass rating |
| LegacyUTTTBot.RateChild | utttbot.cpp:141-143 | the move's search rating |
| LegacyUTTTBot.AgreesExtend | utttbot.cpp:143 | appending the next first-pass rating extends the agreeing prefix |
| LegacyUTTTBot.SearchPass | utttbot.cpp:136-150 | a pass returns the first winning move, or appends one rating per move to the earlier ones, those of the first pass |
| LegacyUTTTBot.SearchPasses | utttbot.cpp:130-166 | the first winning move of the first pass, or none, and then the first pass's ratings lead the list |
| LegacyUTTTBot.HighestRating | utttbot.cpp:169-171 | the maximum of the first `n` ratings |
| LegacyUTTTBot.CollectRated | utttbot.cpp:177-180 | the moves rated `highestRating`, in move order |
| LegacyUTTTBot.FindBestMove | utttbot.cpp:112-195 | the method computes `Choice` |


## Left out

- Stream I/O and the command loop: `run`, `input` and `move` in both bots, which read standard input, print the move, and build the replay string. Because `move` is left out, the older bot's clearing of `firstMove` on its first move is not modelled.
- Logging and printing: every `std::cerr` line, `RiddlesIOLogger`, and the `operator<<` printers.
- The nodes-per-millisecond ratio (floating point, telemetry only).
- The wall clock. Each timed loop instead takes a count:
  - `MiniMaxSearch.MiniMaxSearch.EvaluateBranchUntilTimeout` takes a number of visits, `steps`;
  - the pass loops of `LegacyUTTTAI.FindBestMove` and `LegacyUTTTBot.FindBestMove` take a number of passes, `clockPasses`, which also replaces `utttbot.cpp`'s `round > 2` condition.
- UTTTAI.RateMovesByMiniMaxAB reads the state's time per move as that visit count. Which children settle therefore depends on this budget, and the contract says of a rating only that it is 0 or the child's marked score at the first depth where it settled.
- Randomness. `select_randomly` becomes a `pick` parameter, and the chosen element is `best[pick % |best|]`.
- `ttt::CheckSetups` and `ttt::IsWinnableBy` have no definition to model. They are function-valued parameters (`setups`, `winnableBy`) of the older heuristic.
- TreeSearch.MiniMaxAB takes `depth: nat`, and so does the reference `Minimax.Search`. The source's `int depth` can be negative; a negative depth never reaches 0 and searches to the leaves. No caller passes one.
- MiniMaxSearch.MiniMaxSearch.MiniMaxAB also takes `depth: nat`, for the same reason.
- UTTTAI.FindBestMove returns `Nothing` when there is no legal move. The source logs an error and then reads past the end of an empty list, which is undefined behaviour. `LegacyUTTTAI.FindBestMove` and `LegacyUTTTBot.FindBestMove` do the same in that case.
- LegacyUTTTAI.EvaluateNextPossibilities returns 0 on the path where `utttai.cpp:296` falls off the end of a non-void function. That path cannot be reached when `winnableBy` returns one of X, O, Both or None.
- GameState.DefaultState gives fields that `UTTTGame.h` leaves uninitialised a value: empty sub-boards, `player` and `opponent` None, `timePerMove` 0. The bots' constructors likewise set their uninitialised numbers to 0 and their names to empty strings.
- Undefined behaviour becomes a precondition:
  - a `field` line with fewer than 81 tokens, or a `macroboard` line with fewer than 9, for the newer bot;
  - more than 81 or more than 9 tokens for the older bot;
  - a `player_names` line with fewer than two names;
  - `evaluateBranchUntilTimeout` on a node without children.
- `std::stoi` throwing on a malformed number becomes `ok == false`, and nothing changes.
- The older findBestMove's `searchTreeExhausted` only logs in `utttbot.cpp`, so the model carries no flag there.
- `AssessedState.potentialWinners` is read uninitialised and no stage uses it.

## Findings

| source | as written | input that shows it | evidently intended | confidence | as-written member | corrected member |
|---|---|---|---|---|---|---|
| MiniMaxSearch.h:100-101 | A settled Loose (-1) has the search depth added and a settled Win (+1) has it subtracted. From depth 3 on, a win is therefore kept as at most -2 and a loss as at least 2. | A child whose search at depth 3 finds a forced win for the bot scores -2, while a child that loses scores 2, so the win is ranked below the loss. | Per the comments on these lines, the closest win rates highest and the closest loss lowest: a win stays positive, a loss stays negative. | not executed | MiniMaxSearch.MarkingInvertsOutcomes | MiniMaxSearch.IntendedMarkingKeepsOutcomes |
| UTTTAI.cpp:185 | The guard `bestMoves[0] != -20` compares an index with the rating -20, so it never holds back the tie-break. | Several moves tie at -20 because their destinations have no move. The first of them is re-rated by the tie-break anyway. | Skip the tie-break when the best rating is -20 (`ratings[bestMoves[0]] != -20`). | not executed | UTTTAI.AsWrittenRanksFreeChoices | UTTTAI.NextBoardRatingsKeepFreeChoices |
| utttai.cpp:133 | `if(!CheckSetups(before, me), CheckSetups(after, me))`: the comma operator discards the first test, so the +5 bonus depends only on the board after the move. | A move on a sub-board where the bot already had a setup, which it still has after the move, gets +5. | Award +5 only when the move creates a setup that was not there before. | not executed | LegacyUTTTAI.SetupBonusAsWrittenRewardsOldSetups | LegacyUTTTAI.SetupBonus |

The rest of the model computes each of these as written. The corrected members state the intended behaviour and prove it.
