# Arcade: Ludo, Snake and Guess, modelled in Dafny

This project models the game logic of a small arcade web app. The app has three games.

- **Ludo.** A four-colour token race on a 15x15 board.
  - The setup screen configures each of the four seats as HUMAN, AI or CLOSED.
  - The match engine rolls the die and decides which tokens may move. It moves a token, detects a win and passes the turn.
  - The board view maps positions to grid cells, groups the tokens that share a cell, and marks which tokens can be clicked.
- **Snake.** A snake on a 20x20 grid.
  - One step per tick. Hitting a wall or itself ends the game.
  - Eating food grows the snake and scores points.
  - The snake speeds up every 50 points.
  - A steering request that would reverse the snake is refused.
- **Guess.** A number-guessing game.
  - The target is a hidden number from 1 to 10, and the player has seven attempts.
  - Each accepted guess is analysed first, then resolved as a win, a loss, or a "too high" / "too low" hint.

The model follows the component files file by file:

| File | Source | Dafny form |
|---|---|---|
| `types.dfy` | `types.ts` | The shared datatypes. |
| `constants.dfy` | `constants.ts` | The constant tables. |
| `ludo_rules.dfy` | `components/LudoGame.tsx` | Pure functions and lemmas for the move rule, move application and turn search. |
| `ludo_game.dfy` | `components/LudoGame.tsx` | The match state, as class `Game`. |
| `board.dfy` | `components/Board.tsx` | Cell mapping, the grouping loop, base slots and cell kinds. |
| `ludo_setup.dfy` | `components/LudoSetup.tsx` | The slots, as class `Setup`. |
| `snake.dfy` | `components/SnakeGame.tsx` | Class `SnakeGame`, plus the food retry loop. |
| `guess.dfy` | `components/GuessGame.tsx` | Class `GuessGame`. |

How the React code maps onto Dafny:

- **State.** Each React state record becomes a class with fields. Each state update becomes a method with a `modifies` clause. Each class invariant is a `Valid()` predicate that every method keeps.
- **Timers.** A `setTimeout` callback becomes a method the host calls later:
  - `Game.ResolveRoll`
  - `Game.NextTurn`
  - `GuessGame.ResolveGuess`
  - `SnakeGame.MoveSnake` for the interval tick
- **Randomness.** Every `Math.random` draw becomes a parameter:
  - the die value
  - the AI's choice among its movable tokens
  - the guess target
  - the sequence of candidate food cells
  - the new avatar address

`Point` and `Direction` are imported by the snake component from `types.ts`, but that file does not declare them. They are declared in `snake.dfy`.

## Ludo rules the code does not have

The code has no capture, safe-cell or per-colour offset rules:

- **Capture and safe cells.** No capture exists: a move changes only the clicked token (`LudoRules.MoveChangesOnlyTheClickedToken`). The safe cells and the colour entry cells only decorate the board.
- **Colour offsets.** There is no per-colour entry offset. Position `p < 52` is drawn on ring cell `p` for every colour, so all colours start on the same cell.
- **Home stretch.** Each colour's home stretch has six cells, but positions 52 to 56 use only the first five. The sixth cell lies in the centre and is never used (`Board.LastHomeStretchCellUnused`).
- **No terminal end of match.**
  - A win sets status FINISHED.
  - If the winning roll was not a 6, the `NextTurn` queued after the click runs anyway. It sets the status back to IDLE and passes the turn on (`LudoGame.Game.HandleTokenClick`).
  - A 6 keeps the turn even after the seat has finished.
- **Token ids.** Ids are 1 to 4 in every seat. The board therefore identifies a movable token by its colour and its id together (`Board.ShownMovableIffClickAccepted`).
- **Finished seats.** When no seat is active and unfinished, the turn search gives up after eight steps and lands on the seat right after the current one (`LudoRules.NextSeatWhenNoneEligible`).
- **Guess constants.** The guess game repeats the constants 7 and 1..10 of `constants.ts` as literals. The model uses the named constants, whose values are the same.

## Model

| member | source | states |
|---|---|---|
| Constants.InitialTokens | constants.ts:18-23 | A seat of colour c starts with four tokens of colour c, ids 1 to 4, all in base (-1) and none home. |
| Constants.SafeZonesWellFormed | constants.ts:25 | The safe cells are eight strictly increasing ring indices in [0, 52). |
| Constants.BaseStartsAreSafeAndSpaced | constants.ts:27-32 | Every colour's entry index is a safe cell. The entries follow each other 13 cells apart in the order red, green, yellow, blue, and wrap round the 52-cell ring. |
| Constants.SharedPathMatchesGeometry | constants.ts:35-44 | The i-th entry of the ring table is the cell an arm-by-arm reading of the board geometry places at ring index i. |
| Constants.SharedPathInGrid | constants.ts:35-44 | The ring has 52 cells, all on the 15x15 grid. |
| Constants.SharedPathDistinct | constants.ts:35-44 | No cell appears twice on the ring. |
| Constants.HomeStretchApart | constants.ts:46-51 | Each colour has six home-stretch cells. None of them is on the ring and none is the home cell. |
| Constants.HomeCoordOffPath | constants.ts:53 | The home cell is not on the ring. |
| LudoRules.Destination | components/LudoGame.tsx:97 | A legal move of a well-placed token advances it and never passes 57. It lands on 0 exactly when the token leaves base. |
| LudoRules.CanMoveToken | components/LudoGame.tsx:43-47 | Whether a token may move with a die value: never from home, out of base only on a 6, otherwise only without passing 57. Its consequences are stated by `LudoRules.MovableIffLegal` and `LudoRules.BaseLeavesOnlyOnSix`. |
| LudoRules.MovableIffLegal | components/LudoGame.tsx:43-47 | A token may move exactly when it is not home, leaves base only on a 6, and its destination does not pass 57. |
| LudoRules.BaseLeavesOnlyOnSix | components/LudoGame.tsx:43-47 | A based token may move exactly on a 6. A home token never moves. |
| LudoRules.MovableTokens | components/LudoGame.tsx:74 | The filtered list holds exactly the seat's tokens that may move with the die. |
| LudoRules.MovableTokenIds | components/LudoGame.tsx:154 | Without a die value no ids are offered. Otherwise an id is offered exactly when some token of the seat with that id may move. |
| LudoRules.ApplyMove | components/LudoGame.tsx:100-106 | In the moving colour's seat, the token with the clicked id gets the new position, and its home flag is set exactly at 57. That seat's finished flag is recomputed from its tokens. Every other seat and every other field is unchanged. |
| LudoRules.MovePlayer | components/LudoGame.tsx:100-104 | One seat's share of a move: only the seat of the token's colour can change, its colour, human flag, active flag, avatar and token count are kept, and its finished flag agrees with its tokens. |
| LudoRules.MoveChangesOnlyTheClickedToken | components/LudoGame.tsx:97-106 | A move changes exactly one token of the whole board, the clicked one, to its destination. Nothing is captured. |
| LudoRules.MovePreservesSeats | components/LudoGame.tsx:97-106 | A legal move keeps four well-formed seats. Positions stay in [-1, 57], home flags agree with position 57, and finished flags agree with "all four home". |
| LudoRules.NextSeatFrom | components/LudoGame.tsx:51-56 | The turn search as a recursion over the loop's state (index, steps taken), which never leaves the table of four. |
| LudoRules.NextSeat | components/LudoGame.tsx:50-56 | The seat `nextTurn` hands the turn to, always one of the four. What seat that is follows from `LudoRules.NextSeatIsFirstEligible` and `LudoRules.NextSeatWhenNoneEligible`. |
| LudoRules.NextSeatFromFindsFirst | components/LudoGame.tsx:51-56 | Once the search reaches an eligible seat m steps on, with none eligible before it, the search stops there. |
| LudoRules.NextSeatFromNoneEligible | components/LudoGame.tsx:51-56 | With no eligible seat, the search takes all its remaining steps. |
| LudoRules.NextSeatIsFirstEligible | components/LudoGame.tsx:51-56 | The turn passes to the first active, unfinished seat in the order cur+1, cur+2, cur+3, cur (mod 4). |
| LudoRules.NextSeatIsEligible | components/LudoGame.tsx:51-56 | Whenever some seat is active and unfinished, the turn lands on such a seat. |
| LudoRules.NextSeatWhenNoneEligible | components/LudoGame.tsx:51-56 | With no such seat, the turn lands on cur+1 (mod 4). |
| Board.ShownMovableIffClickAccepted | components/Board.tsx:139 | In the move phase, the board marks a token as movable exactly when a click on it is acted on. |
| LudoGame.InitialPlayersWellFormed | components/LudoGame.tsx:21-28 | Seats built from four slots of different colours are well formed and unfinished, with every token in base. A seat is human exactly for a HUMAN slot and active exactly for a slot that is not CLOSED. |
| LudoGame.FirstActive | components/LudoGame.tsx:30 | The first active seat's index, or -1 exactly when no seat is active. |
| LudoGame.InitialPlayers | components/LudoGame.tsx:21-28 | One seat per slot in the slots' order, with the slot's colour, unfinished, human exactly for a HUMAN slot and active exactly for a slot that is not CLOSED. |
| LudoGame.Game.constructor | components/LudoGame.tsx:20-39 | The match starts with the built seats on the first active seat. There is no die value, status is IDLE, and the message names that seat's colour. |
| LudoGame.Game.RollDice | components/LudoGame.tsx:67-69 | A roll starts only from IDLE with no roll in flight. It sets the rolling flag and status ROLLING. Otherwise nothing changes. |
| LudoGame.Game.ResolveRoll | components/LudoGame.tsx:71-87 | The die is shown and status becomes WAITING_FOR_MOVE. The message is NO MOVES, with a turn change requested, exactly when none of the seat's tokens may move. Otherwise it is CHOOSE TOKEN. |
| LudoGame.Game.NextTurn | components/LudoGame.tsx:49-65 | The loop lands on NextSeat of the old seat, clears the die, sets IDLE and names the new seat. The seats are unchanged. |
| LudoGame.Game.HandleTokenClick | components/LudoGame.tsx:90-115 | An unaccepted click changes nothing. An accepted click applies the move. A 6 keeps the turn, with FINISHED and a win message when the seat is done. Any other roll passes the turn and leaves status IDLE. |
| LudoGame.Game.AiMove | components/LudoGame.tsx:122-127 | A computer seat in the move phase clicks one of its movable tokens. The click is accepted and has the full effect of a token click: the move, the win check and, unless the die shows 6, the turn change. With no movable token it passes the turn as `NextTurn` does. A human seat, or any other phase, is left alone. |
| Board.CoordsInGrid | components/Board.tsx:16-22 | Every position from -1 to 57 is drawn on a cell of the 15x15 grid. |
| Board.PositionCoords | components/Board.tsx:16-22 | The cell a token is drawn on. It stays in the grid (`Board.CoordsInGrid`), uses ring cell `p` for every colour (`Board.RingPositionCell`) and is one-to-one over a colour's track (`Board.CoordsInjective`). |
| Board.TrackCellsAreTrack | components/Board.tsx:16-22 | Ring positions are drawn on the ring cell of that index. Home-stretch positions are drawn off the ring. No position from 0 to 56 is drawn on a base corner or on the centre. |
| Board.RingPositionCell | components/Board.tsx:20-21 | A ring position p is drawn on the ring cell of index p, outside the bases and the centre. |
| Board.HomeStretchCells | components/Board.tsx:19 | The five used home-stretch cells are off the ring, the bases and the centre. |
| Board.RingCellsOffCorners | components/Board.tsx:76-77 | A ring cell is neither a base corner nor a centre cell. |
| Board.LastHomeStretchCellUnused | components/Board.tsx:19 | The sixth home-stretch cell lies in the centre square, and no position is drawn on it. |
| Board.CoordsInjective | components/Board.tsx:16-22 | Two different positions from 0 to 57 of one colour are drawn on different cells. |
| Board.BaseAndCenterDisjoint | components/Board.tsx:76-77 | No cell is both a base corner and a centre cell. |
| Board.IsBaseCell | components/Board.tsx:76 | The four 6x6 corner areas of the 15x15 grid. |
| Board.IsCenterCell | components/Board.tsx:77 | The 3x3 centre of the grid. It shares no cell with the corner areas (`Board.BaseAndCenterDisjoint`). |
| Board.AllTokens | components/Board.tsx:59-60 | The tokens visited are exactly the tokens of all seats. |
| Board.GroupAtMembers | components/Board.tsx:58-68 | A token is in the group of a cell exactly when it is on the board (not in base, not home) and drawn on that cell. |
| Board.AddOneKeepsGroups | components/Board.tsx:61-65 | Pushing an on-board token onto its cell's group, and opening the group when the cell is new, gives the groups of the tokens seen so far plus this one. |
| Board.AddTokens | components/Board.tsx:60-67 | The inner loop over one seat's tokens turns the groups of the tokens seen so far into the groups of those tokens followed by the seat's tokens. |
| Board.BuildTokenGroups | components/Board.tsx:58-68 | The loop builds a map whose keys are exactly the cells with on-board tokens. Each group lists that cell's tokens in seat-then-token order. |
| Board.FindSeat | components/Board.tsx:25 | The seat found has the requested colour. None is found only when no seat has that colour. |
| Board.InBase | components/Board.tsx:26 | The filtered list holds exactly the tokens in base. |
| Board.BaseSlots | components/Board.tsx:35-36 | A base area shows four slots. Each filled slot holds a based token of that base's colour. |
| Board.IsMovableShown | components/Board.tsx:139 | A token is drawn as clickable when it has the current seat's colour and its id is offered. `Board.ShownMovableIffClickAccepted` shows this agrees with the clicks the game acts on. |
| Snake.Step | components/SnakeGame.tsx:62-70 | The new head is next to the old head. |
| Snake.StepInverse | components/SnakeGame.tsx:62-70 | Stepping back the opposite way returns to the start. Different directions lead to different cells. |
| Snake.Steer | components/SnakeGame.tsx:114-129 | A request is taken exactly when it is not the reverse of the current direction. The result is never that reverse. |
| Snake.TwoPressesReverse | components/SnakeGame.tsx:114-129 | Two presses within one tick (left, then down, while heading up) reverse the heading. |
| Snake.KeyCommand | components/SnakeGame.tsx:110-134 | Only the space bar pauses. Steering comes only from one-letter keys or arrow keys. |
| Snake.InitialSnakeWellFormed | components/SnakeGame.tsx:10-14 | The starting snake is three distinct, adjacent grid cells, and the starting food is off it. |
| Snake.AdvanceKeepsShape | components/SnakeGame.tsx:84-101 | A new head on a free grid cell next to the old head keeps the snake well formed, whether it grows or drops its tail. |
| Snake.SpeedFor | components/SnakeGame.tsx:95 | The interval for a score stays between 60 and 150. |
| Snake.SpeedAfterEating | components/SnakeGame.tsx:94-95 | Ten more points lower the interval by 10, never below 60, exactly when the new score is a multiple of 50. |
| Snake.GenerateFood | components/SnakeGame.tsx:35-45 | The food is the first candidate cell not on the snake. Every earlier candidate was on the snake. |
| Snake.SnakeGame.constructor | components/SnakeGame.tsx:24-31 | The starting snake heads up, with food at (5,5), score 0, interval 150 and the stored high score. |
| Snake.SnakeGame.ChangeDirection | components/SnakeGame.tsx:291-310 | The direction becomes Steer of the old direction and the request. Nothing else changes. |
| Snake.SnakeGame.TogglePause | components/SnakeGame.tsx:131-133 | Only the pause flag flips. |
| Snake.SnakeGame.HandleKey | components/SnakeGame.tsx:109-135 | Steering keys steer, the space bar toggles the pause, and other keys change nothing. |
| Snake.SnakeGame.MoveSnake | components/SnakeGame.tsx:58-105 | Nothing happens when the game is over or paused. Leaving the grid, or hitting any segment including the tail, ends the game and keeps the snake. Food grows the snake; otherwise the tail is dropped. The invariant is kept: score = 10 x growth, interval follows the score, high score ≥ score, food on a free cell. |
| Snake.SnakeGame.Grow | components/SnakeGame.tsx:84-98 | Eating adds the head, scores 10, raises the high score to the score when it is passed, speeds up at multiples of 50, and places new food off the snake. |
| Snake.SnakeGame.Crawl | components/SnakeGame.tsx:99-101 | A move without food keeps the length: the head is added and the tail dropped. |
| Snake.SnakeGame.Reset | components/SnakeGame.tsx:47-56 | Back to the starting snake, heading up, with score 0 and interval 150. New food is placed off the snake. The game is not over or paused, and the high score is kept. |
| Guess.Judge | components/GuessGame.tsx:39-50 | A sent form is ignored exactly outside play or with an empty box. It is accepted exactly for a new number from 1 to 10. A repeat is a number already guessed, and a rejection is not a number from 1 to 10. |
| Guess.Hint | components/GuessGame.tsx:73 | The hint is TOO HIGH exactly when the guess exceeds the target, and TOO LOW otherwise. |
| Guess.GuessGame.constructor | components/GuessGame.tsx:23-25 | On showing, the game is reset with a target from 1 to 10. |
| Guess.GuessGame.Reset | components/GuessGame.tsx:27-35 | The target is from 1 to 10, with seven attempts, no guesses, status playing and an empty box. |
| Guess.GuessGame.Type | components/GuessGame.tsx:147 | Typing changes only the box. |
| Guess.GuessGame.SubmitGuess | components/GuessGame.tsx:37-54 | The outcome follows Judge. No attempt is spent. Only an accepted guess starts scanning. |
| Guess.GuessGame.ResolveGuess | components/GuessGame.tsx:55-76 | The guess goes in front of the list. A hit wins without spending an attempt and reports the win. A miss spends exactly one attempt. At zero attempts the game is lost and the target revealed; otherwise the hint is given. The invariant is kept: distinct guesses, attempts + guesses = 7 (+1 when won), lost exactly at zero. |
| LudoSetup.NextSlotType | components/LudoSetup.tsx:30-33 | The kind a slot takes on a click: HUMAN to AI, AI to CLOSED, CLOSED to HUMAN. A click always changes the kind. |
| LudoSetup.ToggleCycles | components/LudoSetup.tsx:28-35 | Every click changes the slot type. Three clicks restore it. |
| LudoSetup.CountActive | components/LudoSetup.tsx:43 | The count is at most the number of slots. It is zero exactly when every slot is CLOSED. |
| LudoSetup.CountActiveUpdate | components/LudoSetup.tsx:43 | Changing one slot's type changes the count by that slot alone. |
| LudoSetup.ToggleChangesCount | components/LudoSetup.tsx:28-35 | A click keeps the count (HUMAN to AI), lowers it by one (AI to CLOSED) or raises it by one (CLOSED to HUMAN). |
| LudoSetup.AvatarKeepsCount | components/LudoSetup.tsx:37-41 | A new avatar does not change the count. |
| LudoSetup.InitialSlotsCanStart | components/LudoSetup.tsx:21-26 | The initial slots are red, blue, yellow and green, all four active, so the game can start. |
| LudoSetup.StartableSlotsFitTheGame | components/LudoSetup.tsx:69-71 | Slots the start button hands over meet what the match needs: four different colours and at least one open seat. |
| LudoSetup.CanStart | components/LudoSetup.tsx:43-44 | The start button is enabled when at least two slots are not CLOSED. |
| LudoSetup.Setup.constructor | components/LudoSetup.tsx:21-26 | The initial slots: red HUMAN, and blue, yellow and green AI. |
| LudoSetup.Setup.ToggleSlot | components/LudoSetup.tsx:28-35 | Only the clicked slot's type changes, one step round HUMAN, AI, CLOSED. |
| LudoSetup.Setup.RandomizeAvatar | components/LudoSetup.tsx:37-41 | Only the clicked slot's avatar changes, and the count of open slots is kept. |
| LudoSetup.Setup.Start | components/LudoSetup.tsx:69-71 | The slots are handed over exactly when at least two are not CLOSED. |

## Left out

- **Rendering.** Rendering, CSS, animation and canvas drawing are not modelled. This includes the snake's alpha gradient and the guess game's percentage bars, which are floating-point display values.
- **Dice component.** The dice pip drawing in `components/Dice.tsx` is presentation only and is not part of this model.
- **App routing.** The phase routing, background video and unlock timer in `App.tsx` are not part of this model.
- **Timer races.** With no movable token, a computer seat can have two pending turn changes: the 1000 ms one from the roll and its own 800 ms one. Both may run. Each is modelled as a separate `NextTurn` call, but their interleaving in time is not modelled. The AI effect's cancellation when the state changes is not modelled either.
- **Storage.** Writing the snake high score to `localStorage` is not modelled. The stored value enters the model as the constructor's parameter.
- **Input parsing.** `parseInt` is not modelled. The guess box is modelled by what parsing it yields: blank, not a number, or a number.
- **Tokens in the stack.** The horizontal offset of tokens sharing a cell is not modelled.
- **Map keys.** The source keys the token groups by the text `"r-c"`. The model keys them by the cell pair. This is the same grouping, because the text is injective on grid cells.
- Snake.GenerateFood: the source retries forever and never terminates when the snake covers the whole grid. The model requires the draws to contain a free cell and does not model the non-terminating case.
- Snake.SnakeGame.MoveSnake: it requires a free food candidate whenever the step eats, for the same reason.
- **Shared slot objects.** `toggleSlot` and `randomizeAvatar` in `components/LudoSetup.tsx` copy the slot array but assign into the slot objects it shares with the old array. The model treats slots as values, so this aliasing is not modelled. Nothing reads the old array afterwards.
- **Board identifiers.** DOM keys and the `renderBase` placement percentages are not modelled.
- **Direction state.** The snake's `direction` React state is written only on reset and read by nothing that is modelled. The model keeps only the direction reference the step reads.
