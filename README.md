# Qirkat rules engine and alpha-beta player in Dafny

This project models the core of a Qirkat game. Qirkat is played on a 5×5 board. White starts on rows 1–2 and Black on rows 4–5. The middle row starts as `b b - w w`. Pieces step forward or sideways along the board's lines, and captures are forced and chain.

The model covers three parts of the code.

- The board (`Board.java`): the position, the adjacency tables, setting up, legality, move generation, playing and taking back moves, the sideways-move "blocks", static evaluation, end of game and the text form.
- The search of the AI player (`AI.java`): a fixed-depth alpha-beta search that changes one board in place.
- The piece enum (`PieceColor.java`).

## Layout

- `piece_color.dfy` (`PieceColor`): the three pieces, their names, parsing and capitalisation.
- `squares.dfy` (`Squares`): squares 0..24, numbered `(row - '1') * 5 + (col - 'a')`. A move is a sequence of at least two squares. This module holds the move shapes (jump, lateral) and move concatenation.
- `tables.dfy` (`Tables`): the three constant tables `whiteMoveTo`, `blackMoveTo` and `jumpTo`, and `jumpedIndex`. It also holds lemmas on the tables' geometry.
- `board_rules.dfy` (`BoardRules`): the rules as pure functions over a `Position`. A position is the cells, the side to move, the game-over flag and the block list.
- `jump_chains.dfy` (`JumpChains`): the characterisation of the generated jumps. `getJumps` yields exactly the maximal valid capture chains from a square, and `getMoves` yields only those when a capture exists.
- `rules_facts.dfy` (`RulesFacts`): the properties of legality, move application, blocks, evaluation and the search-only helpers.
- `board.dfy` (`Boards`): class `Board`, with a 25-square `array`, the side to move, the end-of-game fields and the block list as fields. Every method updates them in place and is proved against the function of `BoardRules` that specifies it. `getJumps` is proved by its apply, recurse and undo structure. It terminates because each partial jump removes one opponent piece.
- `alpha_beta.dfy` (`AlphaBeta`): `findMove(board, depth, saveMove, sense, alpha, beta)` as functions over positions.
  - The position is threaded from one move to the next, because `undoMoveAI` does not restore every square.
  - The module proves the value, recorded move, cutoff and window properties of the two loops.
- `ai.dfy` (`AIPlayer`): class `AI`. Its methods mutate a `Board` exactly as `findMove` does, and are proved equal to `AlphaBeta.Search`.
- `board_examples.dfy` (`BoardExamples`): positions and games from the repository's unit tests, stated as lemmas.
  - The starting board's text.
  - Move shapes and concatenation.
  - The six jump chains of `testGetMoves` and the three of `testGetMoves2`.
  - The game `GAME1` of `testMoves`, replayed to its final board text.

## Behaviour kept as the code has it

Where the code and its doc-comments and tests differ, the model follows the code.

- `checkJumpRecursive` checks every later segment of a multi-jump against the board as it was before the move. It does not apply the earlier segments first. `legalMove` therefore rejects some chains that `getJumps` generates, such as the chains of `testGetMoves2` that return to their origin. `RulesFacts.ReturningChainsIllegal` and `BoardExamples.GetMoves2` state this.
- For the same reason `legalMove` accepts some chains that `getJumps` never generates, such as a chain that jumps the same piece twice (`RulesFacts.RepeatedCaptureLegal`, `RulesFacts.RepeatedCaptureNotGenerated`).
- `makeMoveAI` puts the opponent's colour on the jumped square. So a move `getMoves` offers, played on the position it was generated from, captures nothing, however many jumps it makes (`RulesFacts.MakeMoveAIKeepsScore`).
- `findMove` sets the side to move only once, before its loop, and a child search's `setWhoseMove(BLACK)` persists after `undoMoveAI` and `setBlocks`. So a minimizing search leaves Black to move (`AlphaBeta.SearchLeavesBlack`). In a maximizing node more than one level above the leaves, every move after the first is then played by `makeMoveAI` for Black (`AlphaBeta.MaxLoopHandsTurnToBlack`). A White step played that way turns the White piece Black and lowers the static score by two (`RulesFacts.StepForOtherSide`). The model threads this board through the loop, as the code does.
- `legalMove` checks only the first segment of a non-jump, and `makeMove` then plays any tail through `makeJumpTail` (`RulesFacts.LegalStepIgnoresTail`).
- `undoMoveAI` fills the origin with the opponent of the side now to move. For a multi-jump it also refills each intermediate landing square (`RulesFacts.UndoMoveAIRestores`, `RulesFacts.UndoMoveAIRefillsLanding`).
- Both branches of the recursive `findMove` search the replies with sense −1, so every reply is a minimizing search. `AlphaBeta.SearchRange` bounds the values this produces.
- With no move, the minimizing branch returns `INFTY`. A Black root whose every reply is `INFTY` records no move.
- `WINNING_VALUE` is declared but never used.
- `makeJumpTail` does not touch the block list.
- `setPieces` does not reset the game-over flag.
- `whiteMoveTo[10]` contains 6, a backward step. `legalMove` accepts it, but `getMoves` filters it out with its row check (`RulesFacts.BackwardStepFromTen`).

## Model

| member | source | states |
|---|---|---|
| PieceColor.Opposite | qirkat/PieceColor.java:15-36 | the opposite of a colour is the other colour, and it is a piece |
| PieceColor.OppositeOf | qirkat/PieceColor.java:15-36 | `opposite` fails exactly on EMPTY; otherwise it gives a different piece |
| PieceColor.OppositeInvolution | qirkat/PieceColor.java:15-36 | `opposite` is an involution that swaps White and Black |
| PieceColor.ShortName | qirkat/PieceColor.java:78-80 | the short name is one character among `b`, `w`, `-` |
| BoardRules.PieceOfShortName | qirkat/PieceColor.java:78-80 | Black's short name is `b`, White's `w` and Empty's `-`: the `setPieces` switch reads each back as its piece |
| PieceColor.Name | qirkat/PieceColor.java:82-90 | the full name has five characters |
| PieceColor.Lower | qirkat/PieceColor.java:40-51 | lower-casing keeps the length and lowers each letter |
| PieceColor.FromStringName | qirkat/PieceColor.java:40-51 | `fromString` inverts `toString` on all three pieces |
| PieceColor.FromStringExactly | qirkat/PieceColor.java:40-51 | `fromString` accepts a string exactly when it equals a piece's name ignoring case |
| PieceColor.NamesDistinct | qirkat/PieceColor.java:78-90 | different pieces have different short names and names |
| PieceColor.CapitalizeName | qirkat/PieceColor.java:56-58 | capitalising a lower-cased name gives the name back |
| Squares.Index | qirkat/Board.java:15-18 | the index of column C, row R has row R and column C |
| Squares.IndexColRow | qirkat/Board.java:15-18 | index and (column, row) are inverse |
| Squares.JumpTail | qirkat/Board.java:519-522 | a move has a tail exactly when it has more than one segment; the tail starts at the first landing |
| Squares.Concat | qirkat/Board.java:343-351 | concatenation keeps the first move as a prefix and the second as a suffix |
| Squares.ConcatAssociative | qirkat/MoveTest.java:48-68 | concatenation is associative |
| Tables.JumpedIndex | qirkat/Board.java:393-396 | the jumped square lies between origin and landing |
| Tables.TableSizes | qirkat/Board.java:821-1192 | each table has an entry for all 25 squares |
| Tables.JumpGeometry | qirkat/Board.java:1060-1192 | every `jumpTo` entry is a jump over an adjacent middle square |
| Tables.JumpParity | qirkat/Board.java:1060-1192 | a jump lands on a square of its origin's column and row parity and passes over one of another parity |
| Tables.StepGeometry | qirkat/Board.java:821-1056 | every step-table entry is an adjacent square and not a jump |
| Tables.StepDirection | qirkat/Board.java:821-1056 | the only backward White entry is 10→6; Black entries never go up |
| BoardRules.Jumps | qirkat/Board.java:327-354 | every generated jump starts at the given square |
| BoardRules.JumpsVia | qirkat/Board.java:327-354 | every chain through one landing starts at the given square |
| BoardRules.PartialJumpCaptures | qirkat/Board.java:358-363 | a partial jump removes one opponent piece |
| BoardRules.StepsFrom | qirkat/Board.java:301-323 | every simple move found is a single segment from the given square |
| BoardRules.NonJumpsUpTo | qirkat/Board.java:273-282 | moves found for squares below N start below N |
| BoardRules.NonMovesUpTo | qirkat/Board.java:287-296 | jumps found for squares below N start below N |
| BoardRules.StripWhitespace | qirkat/Board.java:139 | removing whitespace leaves no whitespace and never lengthens the text |
| BoardRules.StripWhitespaceAppend | qirkat/Board.java:139 | stripping works on the two halves of a text separately, so every other character survives in order |
| BoardRules.StripWhitespaceOne | qirkat/Board.java:139 | a single character is dropped exactly when it is whitespace |
| BoardRules.RowText | qirkat/Board.java:708-718 | a rendered row of N squares has 1 + 2N characters |
| BoardRules.Count | qirkat/Board.java:664-675 | a count never exceeds the board size |
| BoardRules.BlocksOf | qirkat/Board.java:570-578 | `blocks(k)` lists at most one destination per block |
| BoardRules.WithoutKey | qirkat/Board.java:605-613 | clearing a key never lengthens the block list |
| JumpChains.JumpedSquares | qirkat/Board.java:393-396 | a chain of N segments jumps N squares, the first over the first segment |
| JumpChains.JumpsViaNonEmpty | qirkat/Board.java:327-354 | a landing contributes chains exactly when its single jump is available |
| JumpChains.JumpsEmpty | qirkat/Board.java:327-354 | `getJumps` adds nothing exactly when `jumpPossible(k)` is false |
| JumpChains.ExtendMembership | qirkat/Board.java:343-351 | a concatenated chain is the segment followed by one of the tails |
| JumpChains.JumpsViaChar | qirkat/Board.java:327-354 | chains through a landing are exactly the maximal valid chains with that first landing |
| JumpChains.JumpsUpToChar | qirkat/Board.java:327-354 | chains through the first N landings are the maximal chains landing first among them |
| JumpChains.JumpsChar | qirkat/Board.java:327-354 | `getJumps` yields exactly the maximal valid capture chains from the square |
| JumpChains.NonMovesUpToChar | qirkat/Board.java:287-296 | jumps gathered from squares below N are the maximal chains of the mover's pieces there |
| JumpChains.NonMovesChar | qirkat/Board.java:287-296 | `getNonMoves` yields exactly the maximal chains of the mover's pieces |
| JumpChains.NonMovesUpToEmpty | qirkat/Board.java:287-296 | no jump is gathered below N exactly when no piece below N can jump |
| JumpChains.NonMovesEmpty | qirkat/Board.java:287-296 | `getNonMoves` is empty exactly when `jumpPossible()` is false |
| JumpChains.NonMovesByOrigin | qirkat/Board.java:287-296 | jumps come grouped by ascending origin |
| JumpChains.NonJumpsByOrigin | qirkat/Board.java:273-282 | simple moves come grouped by ascending origin |
| JumpChains.MovesByOrigin | qirkat/Board.java:258-268 | `getMoves` lists moves by ascending origin |
| JumpChains.ValidChainIsJump | qirkat/Board.java:205-225 | a valid capture chain is a jump |
| JumpChains.CapturesForced | qirkat/Board.java:258-268 | when a capture exists, `getMoves` is non-empty and yields only maximal capture chains |
| JumpChains.CantMoveIffNoMoves | qirkat/Board.java:630-632 | while the game is on, `cantMove` holds exactly when `getMoves` is empty |
| JumpChains.CantMoveAfterGameOver | qirkat/Board.java:630-632 | once the game is over `getMoves` is empty, and `cantMove` holds exactly when no jump is possible |
| RulesFacts.CountPartition | qirkat/Board.java:664-675 | White, Black and Empty squares add up to the board |
| RulesFacts.StaticScoreBounds | qirkat/Board.java:664-675 | the static score lies in [−25, 25]; ±25 means one side has no pieces |
| RulesFacts.CountPositive | qirkat/Board.java:637-644 | a count is positive exactly when the piece occurs |
| RulesFacts.BlocksOfMembership | qirkat/Board.java:570-578 | X is in `blocks(k)` exactly when the pair (k, X) is in the block list |
| RulesFacts.RekeyShape | qirkat/Board.java:582-588 | `updateBlocks` keeps the length and destinations and rekeys `old` to `curr` |
| RulesFacts.RekeyBlocks | qirkat/Board.java:582-588 | after `updateBlocks`, `curr` carries the blocks of both keys and `old` none |
| RulesFacts.WithoutKeyMembership | qirkat/Board.java:605-613 | `clearHorizontalBlocks(k)` removes exactly the pairs keyed on k |
| RulesFacts.WithoutKeyIdempotent | qirkat/Board.java:605-613 | clearing a key twice is clearing it once, and it leaves no block on the key |
| RulesFacts.UndoPartialJumpInverts | qirkat/Board.java:358-371 | `undoPartialJump` inverts an available `partialJump` |
| RulesFacts.StepsFromChar | qirkat/Board.java:301-323 | simple moves along a table row are exactly its allowed single steps |
| RulesFacts.NonJumpsUpToChar | qirkat/Board.java:273-323 | simple moves from squares below N are exactly their allowed steps |
| RulesFacts.NonJumpsChar | qirkat/Board.java:273-323 | a simple move needs an empty, unblocked table target; White never goes down nor leaves row 5, Black never goes up nor leaves row 1 |
| RulesFacts.BackwardStepFromTen | qirkat/Board.java:461-483 | `legalMove` accepts the step 10→6 that `getMoves` never offers |
| RulesFacts.NonJumpsLegal | qirkat/Board.java:461-483 | with no capture, every generated simple move is legal |
| RulesFacts.SingleJumpsLegal | qirkat/Board.java:461-483 | a generated single jump is legal exactly when it is not a blocked lateral move |
| RulesFacts.LegalMoveRequirements | qirkat/Board.java:461-483 | a legal move is a jump when a capture exists, is not blocked, starts on the mover and lands on an empty square |
| RulesFacts.LegalMoveIsSetupPlusRules | qirkat/Board.java:486-501 | `legalMove` is `legalSetupMove` plus the forced-capture and block rules |
| RulesFacts.CheckJumpRecursiveSegments | qirkat/Board.java:232-244 | an accepted chain has every segment available on the unchanged board |
| RulesFacts.RepeatedCaptureLegal | qirkat/Board.java:232-244 | `legalMove` accepts a1-c3-a3-c1 over b2, b3 and b2 again |
| RulesFacts.RepeatedCaptureNotGenerated | qirkat/Board.java:327-354 | `getMoves` never offers that chain |
| RulesFacts.LegalJumpSegments | qirkat/Board.java:205-244 | a legal jump has each segment available on the board as given, and every landing is empty and differs from the origin |
| RulesFacts.LegalJumpLandings | qirkat/Board.java:205-244 | a legal jump never lands on its origin |
| RulesFacts.ReturningChainsIllegal | qirkat/Board.java:205-244 | a multi-jump that returns to its origin is never legal |
| RulesFacts.LegalJumpInTable | qirkat/Board.java:205-244 | every segment of a legal jump is a `jumpTo` entry |
| RulesFacts.MakeJumpTailEffect | qirkat/Board.java:618-625 | the tail empties its landings and jumped squares, puts the mover on the last landing and changes nothing else |
| RulesFacts.MakeMoveJumpEffect | qirkat/Board.java:506-526 | a legal jump empties the origin and all jumped squares, puts the mover on the last landing, changes nothing else and passes the turn |
| RulesFacts.MakeMoveStepEffect | qirkat/Board.java:506-526 | a single-segment step moves the piece, changes no other square and passes the turn |
| RulesFacts.LegalStepIgnoresTail | qirkat/Board.java:461-483 | a step with a tail is legal exactly when its first segment is, and `makeMove` plays the tail after that segment with `makeJumpTail` |
| RulesFacts.LegalSingleJumpCaptures | qirkat/Board.java:506-526 | a legal single jump removes one opponent piece and keeps the mover's |
| RulesFacts.MakeMoveStepBlocks | qirkat/Board.java:511-519 | after any step the destination carries its own and the origin's blocks, plus the way back when lateral; the origin carries none and other squares keep theirs |
| RulesFacts.MakeMoveJumpBlocks | qirkat/Board.java:511-519 | a jump removes exactly the pairs keyed on the origin and adds (to, from) when lateral |
| RulesFacts.StepKeepsScore | qirkat/Board.java:529-547 | `makeMoveAI` of a step of a piece of the side to move to an empty square keeps the static score and the side to move |
| RulesFacts.SearchJumpSegment | qirkat/Board.java:529-547 | one jump played by `makeMoveAI` on a board matching the generator's keeps the score, and the boards match again from the landing |
| RulesFacts.ChainKeepsScore | qirkat/Board.java:529-547 | a whole valid chain played by `makeMoveAI` keeps the static score and the side to move |
| RulesFacts.MakeMoveAIKeepsScore | qirkat/Board.java:529-547 | every move `getMoves` offers, multi-jump chains included, keeps the static score and the side to move under `makeMoveAI` on the position it was generated from |
| RulesFacts.StepForOtherSide | qirkat/Board.java:529-537 | a White step played by `makeMoveAI` while Black is to move leaves a Black piece on the destination and lowers the static score by two |
| RulesFacts.UndoMoveAIRestores | qirkat/Board.java:529-563 | a single-segment take-back restores the cells exactly when the side to move was switched in between |
| RulesFacts.UndoMoveAIRefillsLanding | qirkat/Board.java:550-563 | taking back a double jump refills the intermediate landing |
| RulesFacts.NoPiecesNoSteps | qirkat/Board.java:273-296 | a side with no pieces has no moves and no jumps |
| RulesFacts.KilledCantMove | qirkat/Board.java:630-644 | a side with no pieces cannot move |
| Boards.InitLayoutValid | qirkat/Board.java:95-104 | the starting layout is a valid description with nothing to strip |
| Boards.Board.constructor | qirkat/Board.java:70-73 | a new board holds the starting position, White to move, no blocks |
| Boards.Board.Copy | qirkat/Board.java:78-81 | a copy holds the same position in a fresh array |
| Boards.Board.Clear | qirkat/Board.java:95-104 | `clear` installs the starting position, keeps the array and the recorded winner |
| Boards.Board.SetPieces | qirkat/Board.java:135-164 | an empty side or a bad description is rejected with nothing changed; otherwise square k holds character k's piece, the blocks are cleared and the game-over flag is kept |
| Boards.Board.Set | qirkat/Board.java:195-198 | square K holds V and nothing else changes |
| Boards.Board.Blocks | qirkat/Board.java:570-578 | returns the destinations keyed on K |
| Boards.Board.UpdateBlocks | qirkat/Board.java:582-588 | rekeys the block list in place |
| Boards.Board.ClearHorizontalBlocks | qirkat/Board.java:605-613 | removes the pairs keyed on K |
| Boards.Board.CopyBlocks | qirkat/Board.java:591-597 | returns the current block list |
| Boards.Board.SetBlocks | qirkat/Board.java:600-602 | installs a block list and changes nothing else |
| Boards.Board.SetWhoseMove | qirkat/Board.java:727-734 | sets the side to move and changes nothing else |
| Boards.Board.JumpPossibleAt | qirkat/Board.java:419-428 | the loop over `jumpTo[k]` decides whether K can jump |
| Boards.Board.JumpPossible | qirkat/Board.java:433-440 | the loop over the squares decides whether the mover can jump |
| Boards.Board.PartialJump | qirkat/Board.java:358-363 | makes one segment on the array |
| Boards.Board.UndoPartialJump | qirkat/Board.java:366-371 | takes one segment back on the array |
| Boards.Board.GetJumps | qirkat/Board.java:327-354 | the apply, recurse and undo search returns the chains of `Jumps` and leaves every square as it found it |
| Boards.Board.JumpsThrough | qirkat/Board.java:329-351 | the body of the loop of `getJumps` for one landing |
| Boards.Board.GetNonMoves | qirkat/Board.java:287-296 | gathers the jumps of the mover's pieces, leaving the board unchanged |
| Boards.Board.GetSimpleMoves | qirkat/Board.java:301-323 | the simple moves of one square |
| Boards.Board.StepsAlong | qirkat/Board.java:310-322 | the loop over one table row |
| Boards.Board.GetNonJumps | qirkat/Board.java:273-282 | gathers the simple moves of the mover's pieces |
| Boards.Board.GetMoves | qirkat/Board.java:249-268 | nothing when the game is over, the jumps when one exists, else the simple moves |
| Boards.Board.CheckJumpRecursive | qirkat/Board.java:232-244 | checks each segment on the unchanged board |
| Boards.Board.CheckJump | qirkat/Board.java:205-225 | a one-segment partial jump or a fully checked chain |
| Boards.Board.LegalMove | qirkat/Board.java:461-483 | decides `legalMove`, with the board unchanged |
| Boards.Board.LegalSetupMove | qirkat/Board.java:486-501 | decides `legalSetupMove` |
| Boards.Board.MakeJumpTail | qirkat/Board.java:618-625 | plays the remaining segments on the array |
| Boards.Board.MakeMove | qirkat/Board.java:506-526 | plays the move in place; see the `MakeMove*` lemmas for its effect |
| Boards.Board.MakeMoveAI | qirkat/Board.java:529-547 | plays a search move in place |
| Boards.Board.UndoMoveAI | qirkat/Board.java:550-563 | takes a search move back in place |
| Boards.Board.StaticScore | qirkat/Board.java:664-675 | the loop counts White minus Black |
| Boards.Board.Killed | qirkat/Board.java:637-644 | the side to move has no pieces |
| Boards.Board.CantMove | qirkat/Board.java:630-632 | the side to move has no move, with the board unchanged |
| Boards.Board.CheckEndGame | qirkat/Board.java:653-660 | the game ends exactly when the side to move is killed or stuck, and then the other side wins |
| Boards.Board.ToString | qirkat/Board.java:686-721 | `toString(false)`: the rows from row 5 down, joined by newlines |
| AlphaBeta.MaxLoopCoverage | qirkat/AI.java:83-97 | the max loop searches every move unless it cuts off, and at least one when there is one |
| AlphaBeta.MaxLoopValue | qirkat/AI.java:83-97 | the max loop's value is the largest of the start value and the replies searched |
| AlphaBeta.MaxLoopBest | qirkat/AI.java:87-90 | the move kept is the first that reaches the value (strict `>`) |
| AlphaBeta.MaxLoopCutoff | qirkat/AI.java:91-96 | given alpha < beta, on a cutoff the max loop's value is at least beta |
| AlphaBeta.MaxLoopReplies | qirkat/AI.java:83-97 | every reply value is a static score or `INFTY` |
| AlphaBeta.MaxLoopKeeps | qirkat/AI.java:84-93 | the max loop leaves the block list and the game-over flag as it found them |
| AlphaBeta.MinLoopCoverage | qirkat/AI.java:102-116 | the min loop searches every move unless it cuts off |
| AlphaBeta.MinLoopValue | qirkat/AI.java:102-116 | the min loop's value is the smallest of the start value and the replies searched |
| AlphaBeta.MinLoopBest | qirkat/AI.java:106-109 | the move kept is the first that reaches the value (strict `<`) |
| AlphaBeta.MinLoopCutoff | qirkat/AI.java:110-115 | given alpha < beta, on a cutoff the min loop's value is at most alpha |
| AlphaBeta.MinLoopReplies | qirkat/AI.java:102-116 | every reply value is a static score or `INFTY` |
| AlphaBeta.MinLoopKeeps | qirkat/AI.java:103-112 | the min loop leaves the block list and the game-over flag as it found them |
| AlphaBeta.SearchLeaf | qirkat/AI.java:77-79 | at depth 0 the value is the static score in [−25, 25], nothing is recorded and the board is untouched |
| AlphaBeta.SearchRange | qirkat/AI.java:72-123 | every value is a static score or `INFTY`, or `-INFTY` for a stuck maximizer |
| AlphaBeta.ReplyRange | qirkat/AI.java:84-86 | a reply's value is a static score or `INFTY` |
| AlphaBeta.SearchBest | qirkat/AI.java:72-123 | no move is recorded exactly when the value is ∓`INFTY`; a recorded move is a generated move and the first to reach the value |
| AlphaBeta.MaximizingRecordsMove | qirkat/AI.java:80-98 | a maximizer with a move always records one |
| AlphaBeta.SearchKeeps | qirkat/AI.java:72-123 | the search leaves the block list and the game-over flag as it found them |
| AlphaBeta.ReplyKeeps | qirkat/AI.java:84-93 | a reply keeps the game-over flag |
| AlphaBeta.MakeMoveAIKeepsGameOver | qirkat/Board.java:529-547 | a search move keeps the game-over flag and the side to move |
| AlphaBeta.SearchLeavesBlack | qirkat/AI.java:99-116 | a minimizing search above the leaves leaves Black to move |
| AlphaBeta.ReplyLeavesTurn | qirkat/AI.java:85-86 | a reply's search leaves the side to move unchanged one level above the leaves, and Black higher up |
| AlphaBeta.MinLoopLeavesBlack | qirkat/AI.java:102-116 | the min loop, started with Black to move, leaves Black to move |
| AlphaBeta.MaxLoopHandsTurnToBlack | qirkat/AI.java:80-97 | above depth 1, once a move is taken back Black is to move, so the max loop's later moves are played for Black and it leaves Black to move |
| AlphaBeta.UndoMoveAIKeepsRest | qirkat/Board.java:550-563 | a take-back keeps the flag, the blocks and the side to move |
| AIPlayer.MaxLoopTurn | qirkat/AI.java:83-97 | one turn of the max loop: update the value, the move and alpha, then stop or go on |
| AIPlayer.MinLoopTurn | qirkat/AI.java:102-116 | one turn of the min loop: update the value, the move and beta, then stop or go on |
| AIPlayer.AI.constructor | qirkat/AI.java:37-39 | a player of the given colour with no move found |
| AIPlayer.AI.FindMove | qirkat/AI.java:53-61 | searches a copy at depth 5 with the full window, records and returns the root's move, which is a legal-generated move of the player; White always finds one when it has a move |
| AIPlayer.AI.FindMoveAt | qirkat/AI.java:72-123 | the in-place search returns the value of `Search`, leaves the board as it does, and records its move only when asked |
| AIPlayer.AI.SearchReply | qirkat/AI.java:84-93 | play, search the reply, take back and restore the blocks |
| AIPlayer.AI.MaximizeOver | qirkat/AI.java:80-98 | the max loop on the board equals `MaxLoop` |
| AIPlayer.AI.MinimizeOver | qirkat/AI.java:99-118 | the min loop on the board equals `MinLoop` |
| BoardExamples.InitialBoardText | qirkat/BoardTest.java:17-18 | a cleared board renders as `INIT_BOARD` |
| BoardExamples.MoveShapes | qirkat/MoveTest.java:18-30 | `a3-b2` is a step and `a3-a5` a jump |
| BoardExamples.ConcatenationExamples | qirkat/MoveTest.java:48-68 | the concatenations of the test give `c1-a1-a3-c5-c3` either way |
| BoardExamples.Moves1FromC1 | qirkat/BoardTest.java:64-86 | the jumps from c1 in `testGetMoves` are its six chains, in the order `getJumps` finds them |
| BoardExamples.Layout1Cells | qirkat/BoardTest.java:67 | the description of `testGetMoves` is valid and places White on c1 and Black on b1, a2, b2, b4, c4 |
| BoardExamples.GetMoves1 | qirkat/BoardTest.java:64-86 | `getMoves` gives exactly the six expected chains, of up to five jumps, and no others |
| BoardExamples.FromC1 | qirkat/BoardTest.java:88-106 | the jumps from c1 in `testGetMoves2` are its three chains, in order |
| BoardExamples.Layout2Cells | qirkat/BoardTest.java:90 | the description of `testGetMoves2` is valid and places White on c1 and Black on b1, a2, b2 |
| BoardExamples.GetMoves2 | qirkat/BoardTest.java:88-106 | `getMoves` gives exactly the expected chains, and the two that return to c1 are not legal |
| BoardExamples.Replay | qirkat/BoardTest.java:26-31 | playing moves in turn passes the turn once per move and keeps the game-over flag |
| BoardExamples.Game1Cells | qirkat/BoardTest.java:20-24 | GAME1 from the starting squares leaves the squares of `GAME1_BOARD` |
| BoardExamples.Game1Board | qirkat/BoardTest.java:20-24 | GAME1 from the starting position renders as `GAME1_BOARD` |

## Left out

- `Move.java` is not part of this model. A move is a sequence of at least two squares. `isJump`, `jumpTail`, concatenation and the column and row of a square are modelled from their uses in `Board.java` and the move tests.
- `IsLateral`: `isLeftMove() || isRightMove()` is assumed to mean that the first segment stays on its row and changes column. `Move.java` is not part of this model, so this is an assumption.
- The move parser and printer (`Move.parseMove`, `toString` of a move) are not modelled. Moves appear as square sequences.
- `PieceColor.Lower`: case folding covers the ASCII letters A to Z only. Java's `toLowerCase` folds every Unicode letter, and a few non-ASCII characters fold to ASCII letters (U+212A KELVIN SIGN becomes `k`).
- `PieceColor.FromString`: because of this, an input that spells a name with such a character, as `BLAC` followed by U+212A does, is accepted by `fromString` but gives `None` here. Inputs made of ASCII characters get the code's answer.
- `PieceColor.Capitalize`: upper-casing covers `a` to `z` only, while `Character.toUpperCase` also upper-cases other letters (`é` becomes `É`). The words it is applied to in this model, the three names, are ASCII.
- `setPieces` with a null side is not modelled. Dafny has no null piece; the EMPTY side takes its error path.
- `setWhoseMove` accepts only White or Black. The code never passes EMPTY.
- The null branch of `checkJump` (a move with no tail) is the `None` case of the tail option.
- `copy(Board)` on an existing board appends the other board's blocks to its own list. It is not modelled; the copying constructor, which starts from an empty list, is (`Boards.Board.Copy`).
- `removeAll` in `clearHorizontalBlocks` compares arrays by identity. It is modelled as a filter on the key, which is what the code relies on.
- Blocks are modelled by value (`seq<Block>`). The sharing of block arrays between lists is not modelled.
- The makeMove overloads that take characters or strings, and `get`/`set` by column and row, are the same operations on the computed index.
- `Boards.Board.Get` is the plain array read and carries no contract of its own.
- The Observer/Observable notification, the read-only `ConstantBoard` view, `toString(true)` with its legend, `hashCode` and `equals` are not modelled. They are display and identity plumbing.
- `Game`, `Manual`, the timing hooks of `AI` and the link from `AI` to its game are not modelled. The player's colour is a constructor argument, and the game's board is passed to `FindMove`.
- Integers are unbounded. Scores stay within ±25 and `INFTY` is `Integer.MAX_VALUE`, so no value computed by the code overflows, and no wrap-around is modelled.
- `AlphaBeta.Outcome` also carries the reply values and a cutoff flag. They are bookkeeping for the proofs and are not state of the program.
- The loops of `findMove` are split into `AI.MaximizeOver`, `AI.MinimizeOver` and `AI.SearchReply`, each with its own contract.
