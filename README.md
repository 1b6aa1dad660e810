# Dots and Boxes, Tic-Tac-Toe and Stone-Paper-Scissors in Dafny

This project models the game logic of three browser games and proves
properties of it.

**Dots and Boxes.** Players take turns drawing a line between two
neighbouring dots of a `rows` x `cols` lattice. Drawing the fourth side of a
unit box captures it: the box records the mover's initial and colour, and the
mover scores a point and keeps the turn. If nothing is captured, the turn
passes to the next player in roster order. The game ends when every box is
owned. Computer players choose a line at one of three difficulties:

- easy picks any free line;
- medium takes a box whenever it can;
- hard takes a box whenever it can, and otherwise avoids lines that leave a
  box with three sides.

**Tic-Tac-Toe.** X and O alternate on nine squares. After each mark the
board is checked against the eight winning lines, then for a draw.

**Stone-Paper-Scissors.** One round against the computer: a shake phase,
then a reveal that shows both moves, the outcome and the updated scoreboard.

Layout:

- `wrappers.dfy`: `Option`, standing for `null`.
- `grid.dfy`: lines, boxes, the sides of a box, and the counts of boxes and
  lines on a board.
- `capture.dfy`: players, box owners, and the capture scan `CheckBoxes` with
  its per-row helper.
- `policy.dfy`: the computer player:
  - listing the free lines;
  - finding the lines that complete a box;
  - the dangerous-move test;
  - the three difficulty tiers.
- `match.dfy`: the match as a whole:
  - the state of a match and the pure functions `Draw` and `Click`, which
    specify one move;
  - the invariant `Inv` that every move keeps;
  - building the roster and picking the winner;
  - the class `Match`, whose methods change its fields exactly as `Click`
    and `Draw` say.
- `tictactoe.dfy`: the winning lines, `CalculateWinner`, the spec function
  `Click`, the invariant, and the class `Game`.
- `rps.dfy`: the move table, `Resolve`, the scoreboard, and the class `Game`
  with its two-phase round.

Modelling choices:

- **Lines and boxes are values.** The source keys a line by a string such
  as `r2c3-h` and a box by `2-3`. The model uses `Line(kind, r, c)` and
  `Box(r, c)` instead. The source's key for a line is a one-to-one function
  of these three fields, so nothing is lost.
- **Colours are symbolic.** A colour is `Hsl(slot, of)`, the slot and the
  number of players the source's `hsl(...)` string is built from.
- **Random choices are parameters.** Each `Math.random` pick is a `roll`
  parameter:
  - the computer's line is `pool[roll % |pool|]`; `ChooseLine` returns
    `pool` and proves that its members are exactly the allowed lines;
  - the Stone-Paper-Scissors move is `Choices[roll]` with `roll < 3`.
- **Timers are explicit steps.** The 1-second timer of Stone-Paper-Scissors
  is the scheduled step `Reveal`. The field `pending` keeps the move that the
  scheduled callback will reveal.
- **Each handler is one step.** React's batched `setState` calls are
  modelled as one atomic update of the class fields.
- **Clicks are not checked against whose turn it is.** `HandleLineClick`
  accepts a click from anyone, as the source does, even while a computer
  player is about to move.
- **One difficulty, one winner.** The difficulty is a single setting for
  the whole match (`src/components/DotsAndBoxes.jsx:21`), not one per
  computer player. The winner shown is a single player
  (`src/components/DotsAndBoxes.jsx:488`): the first entry of the roster
  sorted by descending score with a stable sort, so the first in roster
  order among those with the top score, not the set of all top scorers.

## Model

| member | source | states |
|---|---|---|
| Grid.SideCount | src/components/DotsAndBoxes.jsx:226-230 | the number of drawn sides of a box is at most 4, and it is 4 exactly when all four sides are drawn |
| Grid.AllBoxesExact | src/components/DotsAndBoxes.jsx:90-91 | the boxes the scans visit are exactly the boxes of the board |
| Grid.AllLinesExact | src/components/DotsAndBoxes.jsx:153-166 | the lines of the board are exactly the valid horizontal and vertical lines |
| Grid.SidesValid | src/components/DotsAndBoxes.jsx:94-97 | the four sides of a board box are lines of the board |
| Grid.BordersExact | src/components/DotsAndBoxes.jsx:94-97 | the boxes listed as bordering a line are exactly the board boxes that have it as a side |
| Grid.BordersAtMostTwo | src/components/DotsAndBoxes.jsx:94-97 | a line is a side of at most two boxes |
| Grid.BordersCount | src/components/DotsAndBoxes.jsx:94-97 | a line on the rim of the board borders one box, and every other line borders two |
| Grid.BoxCount | src/components/DotsAndBoxes.jsx:120 | the board has (rows-1)(cols-1) boxes, the count the game-over test compares with |
| Grid.LineCount | src/components/DotsAndBoxes.jsx:153-166 | the board has rows(cols-1) + (rows-1)cols lines |
| Capture.NewCaptures | src/components/DotsAndBoxes.jsx:90-105 | the set of boxes a scan captures; `Capture.NewCapturesExact` states which boxes these are, and `DotsAndBoxes.DrawCaptures` what a move does with them |
| Capture.NewCapturesExact | src/components/DotsAndBoxes.jsx:90-105 | a box is newly captured exactly when it is a board box, not owned, and has all four sides drawn |
| Capture.Credit | src/components/DotsAndBoxes.jsx:110 | the roster with the mover's score raised; `Capture.TotalScoreCredit` shows that it raises the sum of the scores by exactly the credit |
| Capture.TotalScoreCredit | src/components/DotsAndBoxes.jsx:110 | adding k to one player's score raises the sum of all scores by exactly k |
| Capture.CheckRow | src/components/DotsAndBoxes.jsx:91-114 | one row of the scan captures exactly that row's capturable boxes for the mover, adds one to the score per box, and sets the capture flag exactly when something was caught |
| Capture.CheckBoxes | src/components/DotsAndBoxes.jsx:84-132 | after the scan, newly enclosed unowned boxes go to the mover, who is credited with their number; the mover keeps the turn after a capture, otherwise the turn becomes (turn+1) mod the number of players; `full` is set exactly when a capture fills the board |
| Capture.CapturesBorderLine | src/components/DotsAndBoxes.jsx:92-110 | if every enclosed box was owned before, a new line captures only boxes it borders, at most two |
| Policy.GetAllAvailableLines | src/components/DotsAndBoxes.jsx:150-171 | the list holds each undrawn valid line exactly once and nothing else |
| Policy.EmptyBoardLineCount | src/components/DotsAndBoxes.jsx:150-171 | on an empty board the list has rows(cols-1) + (rows-1)cols lines |
| Policy.CreatesBox | src/components/DotsAndBoxes.jsx:179-203 | the early-exit scan reports true exactly when the extended set of lines encloses some unowned box |
| Policy.FindBoxCompletingMoves | src/components/DotsAndBoxes.jsx:174-209 | the result holds, without repeats, exactly the free lines whose drawing captures a box |
| Policy.IsDangerousMove | src/components/DotsAndBoxes.jsx:212-239 | the result is true exactly when drawing the move leaves some unowned board box with exactly three sides drawn |
| Policy.SafeMoves | src/components/DotsAndBoxes.jsx:308-310 | the filter keeps, in a list without repeats, exactly the listed moves that are not dangerous |
| Policy.Candidate | src/components/DotsAndBoxes.jsx:249-318 | the lines each difficulty may pick; `Policy.ChooseLine` returns exactly these, and `Policy.ThreeSidedCompletes` and `Policy.DangerousWhenNoneCompleting` characterise the medium and hard tiers |
| Policy.ChooseLine | src/components/DotsAndBoxes.jsx:249-318 | the pick comes from the tier's candidate list, which holds exactly the allowed lines; nothing is picked only when no line is free; medium and hard complete a box whenever one can be completed; hard picks a non-dangerous line whenever one exists and none completes a box |
| Policy.ThreeSidedCompletes | src/components/DotsAndBoxes.jsx:232-234 | an unowned box with three sides drawn makes its fourth side a completing move |
| Policy.DangerousWhenNoneCompleting | src/components/DotsAndBoxes.jsx:304-310 | when no line completes a box, a free line is dangerous exactly when it is a side of an unowned box that has exactly two sides drawn |
| DotsAndBoxes.Draw | src/components/DotsAndBoxes.jsx:84-145 | one legal move as a function of the state; its meaning is proved in `DotsAndBoxes.DrawCaptures`, `DotsAndBoxes.DrawScores`, `DotsAndBoxes.DrawTurn`, `DotsAndBoxes.DrawCapturesAtMostTwo` and `DotsAndBoxes.DrawKeepsInv` |
| DotsAndBoxes.Click | src/components/DotsAndBoxes.jsx:134-146 | a click as a function of the state; `DotsAndBoxes.ClickRejected`, `DotsAndBoxes.ClickMonotone` and `DotsAndBoxes.ClickKeepsInv` state what it does |
| DotsAndBoxes.DrawCaptures | src/components/DotsAndBoxes.jsx:90-115 | a move makes a box owned exactly when the box was unowned and all four of its sides are drawn; new boxes record the mover, and old boxes keep their owners |
| DotsAndBoxes.DrawCapturesAtMostTwo | src/components/DotsAndBoxes.jsx:140-144 | from a reachable state, a move captures at most two boxes, all of them bordering the new line |
| DotsAndBoxes.DrawScores | src/components/DotsAndBoxes.jsx:106-111 | a move adds the number of captured boxes both to the number of owned boxes and to the sum of the scores |
| DotsAndBoxes.DrawKeepsInv | src/components/DotsAndBoxes.jsx:117-131 | a legal move keeps the invariant: the turn is a valid index, ids are positions, owned boxes are exactly the enclosed board boxes, the sum of scores is the number of owned boxes, and the game is over exactly when every box is owned |
| DotsAndBoxes.ClickKeepsInv | src/components/DotsAndBoxes.jsx:134-146 | every click, legal or ignored, keeps the invariant |
| DotsAndBoxes.DrawTurn | src/components/DotsAndBoxes.jsx:117-131 | after a capture the turn stays with the mover, otherwise it is (turn+1) mod the number of players, and it is always a valid index |
| DotsAndBoxes.ClickMonotone | src/components/DotsAndBoxes.jsx:134-146 | drawn lines only grow, owned boxes keep their owners, no score decreases and a finished game stays finished |
| DotsAndBoxes.ClickRejected | src/components/DotsAndBoxes.jsx:134-138 | a click after the game is over, or on a drawn line, leaves the whole state unchanged |
| DotsAndBoxes.GameOverExact | src/components/DotsAndBoxes.jsx:119-122 | in every reachable state the game is over exactly when every box of the board is owned |
| DotsAndBoxes.NotOverHasMove | src/components/DotsAndBoxes.jsx:241-255 | while the game is not over some line is still free, so a computer player always has a move |
| DotsAndBoxes.BuildRoster | src/components/DotsAndBoxes.jsx:49-74 | the roster lists the humans, then the computers; blank human names and initials get the defaults; computers are `Com k` / `Ck`; ids and colour slots are positions and every score is 0 |
| DotsAndBoxes.StartKeepsInv | src/components/DotsAndBoxes.jsx:76-80 | the state of a new match, with no lines, no boxes and turn 0, satisfies the invariant |
| DotsAndBoxes.Winner | src/components/DotsAndBoxes.jsx:488 | the winner shown has the highest score, every earlier player in the roster has a strictly lower score, and there is no winner only for an empty roster |
| DotsAndBoxes.Leader | src/components/DotsAndBoxes.jsx:488 | the search returns a player with the top score who is the first such player in roster order |
| DotsAndBoxes.Move | src/components/DotsAndBoxes.jsx:140-145 | adding the line and running the capture scan yields exactly `Draw` |
| DotsAndBoxes.Match.StartGame | src/components/DotsAndBoxes.jsx:49-82 | a new match has no lines, no boxes, turn 0 and is not over; its roster is the humans with their default names and initials, then the computers, with every score 0; and it satisfies the invariant |
| DotsAndBoxes.Match.Commit | src/components/DotsAndBoxes.jsx:140-145 | the fields become `Draw` of the old state, and the invariant is kept |
| DotsAndBoxes.Match.HandleLineClick | src/components/DotsAndBoxes.jsx:134-146 | the fields become `Click` of the old state, and the invariant is kept |
| DotsAndBoxes.Match.MakeComputerMove | src/components/DotsAndBoxes.jsx:241-326 | a move is made exactly when the game is not over and the player to move is a computer; the line drawn is a candidate of the match's difficulty and the new state is `Draw`; otherwise nothing changes |
| TicTacToe.CombinationsWellFormed | src/components/TicTacToe.jsx:10-14 | there are 8 combinations, each of 3 distinct squares in 0..8 |
| TicTacToe.FirstFrom | src/components/TicTacToe.jsx:35-41 | the search returns the first combination in table order whose three squares hold one mark, or nothing if there is none |
| TicTacToe.CalculateWinner | src/components/TicTacToe.jsx:34-42 | the result is a mark and a combination exactly when that combination is the first in table order with the same mark on all three squares; the result is null exactly when no combination is filled |
| TicTacToe.InitialInv | src/components/TicTacToe.jsx:5-8 | the empty board with X to move satisfies the invariant |
| TicTacToe.CountMark | src/components/TicTacToe.jsx:19-20 | marking an empty square adds one to that mark's count and leaves the other mark's count unchanged |
| TicTacToe.Click | src/components/TicTacToe.jsx:16-31 | a click as a function of the state; `TicTacToe.ClickRejected`, `TicTacToe.ClickWritesOneSquare`, `TicTacToe.ClickVerdict` and `TicTacToe.ClickKeepsInv` state what it does |
| TicTacToe.ClickKeepsInv | src/components/TicTacToe.jsx:16-31 | every click keeps the invariant: the verdict agrees with the board, and the X count equals the O count, plus one after X's move |
| TicTacToe.MarkBalance | src/components/TicTacToe.jsx:20 | in every reachable state the X count minus the O count is 0 or 1 |
| TicTacToe.ClickRejected | src/components/TicTacToe.jsx:17 | a click on a taken square, or after the game is decided, changes nothing |
| TicTacToe.ClickWritesOneSquare | src/components/TicTacToe.jsx:19-20 | a legal click writes X if X is next, else O, on the clicked square, and leaves every other square unchanged |
| TicTacToe.ClickVerdict | src/components/TicTacToe.jsx:23-31 | after a legal click a winning line makes the mover the winner, sets the winning line and keeps the turn; otherwise a full board is a draw and keeps the turn; otherwise the turn flips |
| TicTacToe.NoEarlierWin | src/components/TicTacToe.jsx:23-26 | when no line was complete before a mark is placed, a line completed afterwards carries that mark |
| TicTacToe.Game.constructor | src/components/TicTacToe.jsx:5-8 | the game starts with an empty board, X to move, no winner and no winning line |
| TicTacToe.Game.HandleClick | src/components/TicTacToe.jsx:16-32 | the fields become `Click` of the old state, and the invariant is kept |
| TicTacToe.Game.ResetGame | src/components/TicTacToe.jsx:44-49 | the game goes back to an empty board, X to move, no winner and no winning line |
| StonePaperScissors.NamesDistinct | src/components/RockPaperScissors.jsx:11-15 | the three move names are distinct |
| StonePaperScissors.BeatsIsCycle | src/components/RockPaperScissors.jsx:11-15 | each move beats exactly one move and is beaten by exactly one move, round a 3-cycle, and never beats itself |
| StonePaperScissors.Resolve | src/components/RockPaperScissors.jsx:35-43 | the outcome of a round; `StonePaperScissors.ResolveByCycle` and `StonePaperScissors.ResolveAntisymmetric` tie it to the `beats` cycle |
| StonePaperScissors.ResolveByCycle | src/components/RockPaperScissors.jsx:35-43 | on the table's moves, the round is a tie exactly for equal moves, a player win exactly when the player's move beats the computer's, and a computer win exactly when the computer's move beats the player's |
| StonePaperScissors.ResolveAntisymmetric | src/components/RockPaperScissors.jsx:35-43 | swapping the two moves turns a player win into a computer win and keeps a tie a tie |
| StonePaperScissors.Score | src/components/RockPaperScissors.jsx:38-42 | the scoreboard after a round; `StonePaperScissors.ScoreOnePoint` shows that only the winner gains, by one point |
| StonePaperScissors.ScoreOnePoint | src/components/RockPaperScissors.jsx:38-42 | a player win adds one to the player's score only, a computer win adds one to the computer's score only, and a tie changes neither |
| StonePaperScissors.Find | src/components/RockPaperScissors.jsx:29 | the lookup finds a table entry with the given name exactly when one exists |
| StonePaperScissors.Game.constructor | src/components/RockPaperScissors.jsx:5-9 | a new game has no moves shown, the prompt banner, no shaking and a 0:0 scoreboard |
| StonePaperScissors.Game.PlayGame | src/components/RockPaperScissors.jsx:17-26 | while shaking, this is a no-op; otherwise shaking starts, the banner says to wait, both moves are cleared, the reveal is scheduled, and the scores are unchanged |
| StonePaperScissors.Game.Reveal | src/components/RockPaperScissors.jsx:27-44 | the revealed moves are shown, shaking stops, and the banner and the scoreboard show the outcome |
| StonePaperScissors.Game.ResetScore | src/components/RockPaperScissors.jsx:95 | both scores become 0 and nothing else changes |

## Left out

- Rendering is not modelled: all JSX, the pixel layout, the modal and the
  colours a page element is drawn in.
- The setup form is not modelled: its input handling, `parseInt`, the
  clamps and the page reload. `StartGame` takes the entered humans and the
  number of computers as inputs, and requires 1 to 6 humans, the form's
  clamp. The match also requires at least 2 rows and 2 columns of dots.
  With fewer there is no box, and the source's game-over test, which only
  runs after a capture, would never fire; the model does not cover that
  case.
- React scheduling is not modelled: the effect that starts the 600 ms
  computer-move timer and the cleanup of that timer.
  `Match.MakeComputerMove` is the callback, run as one step.
- `Math.random` is not modelled. It is replaced by the `roll` parameters
  described above.
- HSL colour strings are not built. A colour is the pair the string is made
  from.
- The source raises the mover's score on the player object that the
  previous state also holds. The model builds a copied roster with that one
  score raised. No code reads the old object afterwards, so the resulting
  state is the same.
- The emoji of the Stone-Paper-Scissors table and the banner texts are left
  out. The table keeps names and `beats`, and the banner is a datatype with
  one constructor per text.
- `StonePaperScissors.Game.PlayGame` requires that the move name is one of
  the table's names; the buttons only pass those names.
