# Chess review and room relay — a Dafny model

This project models the logic of a browser chess application with two parts.

The first part is the post-game review in `script.js`:
- building the analysis queue: the start position, then the position after each move, with terminal positions scored without the engine;
- draining that queue first-in first-out, writing each result into slot `moveIndex + 1`;
- reading the UCI engine's `info … score` and `bestmove` lines, with scores turned to White's point of view;
- classifying every move by its clamped loss, and tallying per-side counters and accuracy;
- the coach panel and the evaluation-bar index clamps;
- the history cursor (`navigateHistory`, `reviewNav`);
- `configureEngine`'s Elo-to-skill mapping, and splitting the live `bestmove` token into from, to and promotion;
- the captured-pieces panel: lost pieces, material difference, and grouping into runs.

The second part is the room manager in `server.js`. It keeps a table of six-digit room codes:
- `create_room` draws until it finds a free code;
- `join_room` refuses unknown or full rooms and gives the joiner the creator's opposite colour;
- `move` is relayed to the other sockets of the room;
- `disconnect` closes the first room that lists the socket.

The external collaborators are inputs to the model:
- The chess rules library is replaced by what it reports about each position: the FEN, the side to move, and the checkmate and draw flags.
- For the captured-pieces panel, the rules library is replaced by the flattened board contents.
- The analysis engine is replaced by the text lines it answers.
- `Math.random` is replaced by a sequence of draws.
- socket.io is represented by channel membership and a log of emissions, each naming its recipients.

| file | module | contents |
|---|---|---|
| `js_text.dfy` | `JsText` | JavaScript values and string helpers the core relies on: `null`/holes in arrays, `split`/`join`, `startsWith`/`includes`, `indexOf`, `String(n)`, `parseInt` |
| `uci.dfy` | `Uci` | reading engine lines, the live `bestmove` split, `configureEngine` |
| `evaluation.dfy` | `Evaluation` | pseudo-centipawns, the mover's loss, the thresholds, the per-move accuracy |
| `pipeline.dfy` | `Pipeline` | queue building, queue draining, engine replies; class `ReviewPipeline` |
| `statistics.dfy` | `Statistics` | `renderMoveList` tallies, the coach panel, the evaluation-bar slot |
| `navigation.dfy` | `Navigation` | class `HistoryCursor`: `navigateHistory`, `reviewNav`, clicking a move |
| `captured.dfy` | `Captured` | `updateCapturedPieces` |
| `rooms.dfy` | `Rooms` | class `RoomServer`: the socket handlers of the server |

JavaScript numbers are modelled as `Num(int)` or `NaN`. `parseInt` of a missing token yields `NaN`, and such a loss classifies as a Blunder with accuracy 100, exactly as the comparisons in the code fall out. Per-move accuracy `max(0, 100 - loss/2)` is counted in half points (`200 - loss`), which keeps everything in integers. Then `Math.round` of the mean is `(total + m) / (2m)`.

## Notes on the code

- **Terminal positions.** A checkmate is stored as mate `-1` when White is mated and `+1` when Black is mated (script.js:417), not as a mate in 0. `Pipeline.ManualEval` follows this.
- **Disconnect.** Only the first room, in key order, whose players include the socket is deleted, and the search then stops (server.js:81-89). A socket that created several rooms leaves the others open. `Rooms.RoomServer.Disconnect` follows this.
- **`join_room` can throw.** For a code that names an inherited object property, the handler throws a TypeError before it emits anything (server.js:41-46; see Findings).

## Model

| member | source | states |
|---|---|---|
| JsText.ParseIntRoundTrip | script.js:572 | `parseInt` reads back the decimal text of any integer as that integer |
| JsText.JoinSplit | script.js:569 | splitting at a separator and joining again gives back the original line |
| JsText.NatToStringValue | server.js:24 | `toString()` of a natural number is a numeral whose value is that number |
| JsText.DigitCount | server.js:24 | a number between 10^(k-1) and 10^k - 1 is written with exactly k digits |
| JsText.SixDigits | server.js:24 | every room number in 100000..999999 is written with six digits |
| JsText.ParseIntOfDigits | script.js:572 | `parseInt` of a string that starts with a decimal digit and whose unsigned value is n gives n |
| JsText.ParseIntOfNumeral | script.js:572 | `parseInt` reads back the decimal text of any natural number as that number |
| Uci.InfoScore | script.js:566-575 | a line yields a score exactly when it starts with `info`, contains `score` and has a `score` token; the type and value it reports are stated for engine-shaped lines by `Uci.InfoScoreOfEngineLine` |
| Uci.InfoScoreOfEngineLine | script.js:566-575 | an engine line `info … score cp\|mate n …` is read back as that type and exactly `n` |
| Uci.LiveEngineMove | script.js:544-551 | a move is produced only for a `bestmove` line, and always with a one-character promotion |
| Uci.LiveEngineMoveRoundTrip | script.js:544-551 | `bestmove <from><to>[p] …` is read back as from, to, and the promotion, defaulting to `q` |
| Uci.SkillLevel | script.js:1483-1484 | the level is `round((elo-400)/140)` clamped to 0..20: 0 exactly below Elo 470, 20 exactly from 3130, otherwise within half a level of the exact quotient |
| Uci.SkillLevelMonotone | script.js:1483-1484 | a higher Elo never gets a lower skill level |
| Uci.ConfigureEngineReadBack | script.js:1478-1493 | `ConfigureEngine` (the lines `configureEngine` sends) gives, with an engine, three `setoption` lines, and the skill level and the Elo can be read back from them as numbers |
| Evaluation.PseudoCentipawns | script.js:1054-1055 | a mate score is NaN exactly when its value is |
| Evaluation.MateScoresOrdered | script.js:1054-1055 | a mate for White lies in (0, 10000), a mate for Black in [-10000, 0], and a closer mate is the more extreme score |
| Evaluation.MoveLoss | script.js:1057-1066 | the loss is never negative, and is NaN exactly when a score is |
| Evaluation.MoveLossColourBlind | script.js:1053-1066 | the loss does not depend on the colour that moved: negating both scores and switching the mover gives the same loss, for centipawn scores and every mate value but 0 |
| Evaluation.MirroredScore | script.js:1053-1055 | negating a score negates its pseudo-centipawn value, for centipawn scores and every mate value but 0 |
| Evaluation.CoachLossAgrees | script.js:1227-1236 | the coach's loss (clamp `< 0`) equals the move list's loss (clamp `<= 0`) on every pair of evaluations |
| Evaluation.Classify | script.js:1072-1084 | every loss gets one of the six graded classes, and NaN is a Blunder |
| Evaluation.ClassifyMonotone | script.js:1072-1084 | a larger loss never gets a better class |
| Evaluation.ClassifyBoundaries | script.js:1238-1243 | thresholds 10/30/70/130/300 are inclusive for Best/Excellent/Good/Inaccuracy/Mistake |
| Evaluation.ImprovementIsBest | script.js:1064-1073 | a move after which the mover is no worse off is Best |
| Evaluation.AccuracyHalfPoints | script.js:1095 | per-move accuracy lies in 0..100 (in half points, 0..200); a loss that is zero or NaN costs nothing |
| Pipeline.QueueForShape | script.js:389-428 | `QueueFor` (the queue `analyzeGame` builds, with `ManualEval` for terminal positions) gives, for N moves, N+1 items: the start item (index -1, no result), then item i+1 with index i; checkmate gives mate -1 (White to move) or +1 (Black to move), a draw gives cp 0, and anything else gives no result |
| Pipeline.MatingMoveIsBest | script.js:1054-1084 | the move that delivers mate is rated Best against any score before it within ±9999 pseudo-centipawns |
| Pipeline.DrainIsFifo | script.js:433-467 | `Drain` (what `processAnalysisQueue` and the calls it schedules do) takes a prefix of the queue; it stops at an empty queue or right after the first item that needs a loaded engine, and queries that item; everything taken before it was resolved or met no engine |
| Pipeline.DrainWritesOnlyResolved | script.js:446-452 | the only slots that change are those of resolved items with a known result, and each such slot then holds one of those results |
| Pipeline.DrainWritesEachResolved | script.js:446-466 | each resolved item with a known result lands in slot `moveIndex+1`; an item skipped for lack of an engine leaves its slot as it was |
| Pipeline.DrainKeepsLength | script.js:446-452 | draining keeps the results' length when every slot it may write exists |
| Pipeline.Committed | script.js:606-609 | the committed result is the last score, or cp 0 when there was none, carrying the `bestmove` token |
| Pipeline.LastScoreIgnoresOthers | script.js:566-596 | lines that carry no score leave the pending score unchanged |
| Pipeline.LastScoreFromLatest | script.js:581-595 | a later score line overrides everything before it |
| Pipeline.LastScoreStep | script.js:564-596 | one more line updates the pending score exactly as the handler does |
| Pipeline.BestMoveLineHasNoScore | script.js:566-599 | a `bestmove` line is never read as a score |
| Pipeline.DrainFillsWaiting | script.js:433-467 | with the engine loaded and every empty slot waiting for a queued item, a drain keeps the length and either fills every slot or stops at a query whose slot, with the rest of the queue, covers every empty slot |
| Pipeline.CommitKeepsReady | script.js:599-612 | committing the query in flight of a pending review fills its slot without growing the results, leaving every empty slot waiting for a queued item |
| Pipeline.ReadyDrainPending | script.js:433-467 | draining on with the engine loaded from a ready state gives a pending review: complete with every slot filled, or waiting on the new query |
| Pipeline.QueryIsPending | script.js:458-461 | a new query that, with the rest of the queue, covers every empty slot leaves the review pending |
| Pipeline.StartIsPending | script.js:355-431 | a fresh review of N moves over N+1 empty slots with the engine loaded queries the start position at once and is then pending |
| Pipeline.TempAfterCommit | script.js:606-609 | after a commit the score is empty when a new item was queried; otherwise it is the committed object, carrying the move token, or stays empty |
| Pipeline.ReviewPipeline.constructor | script.js:329-331 | no engine, an empty queue, no results, no current item |
| Pipeline.ReviewPipeline.CompleteReviewFillsEverySlot | script.js:433-437 | a review started with the engine loaded (covered) that is complete has an empty queue and a result in every slot: no position is left null |
| Pipeline.ReviewPipeline.LoadEngine | script.js:559-560 | the engine is loaded and is sent `uci` then `ucinewgame` |
| Pipeline.ReviewPipeline.ProcessQueue | script.js:433-467 | the new queue and results are those `Drain` gives; a queried item becomes current with no score and is sent `position fen …` and `go depth 12`; an emptied queue marks the review complete; a review stays covered exactly when it was ready to drain on (every empty slot waits for a queued item), and a covered drain keeps the results' length |
| Pipeline.ReviewPipeline.AnalyzeGame | script.js:385-431 | the queue built is `QueueFor(after)` and is drained as `ProcessQueue` says; the run is covered exactly when the engine is loaded and it starts over N+1 empty slots of a review that is not complete |
| Pipeline.ReviewPipeline.StartReview | script.js:355-370 | results start as N+1 nulls, keep that length, and analysis starts; the review is covered exactly when the engine is loaded |
| Pipeline.ReviewPipeline.HandleAnalysisMessage | script.js:564-626 | with no current item nothing changes; a score line sets the pending score in White's point of view (negated exactly when Black is to move, for `cp` and `mate`); a `bestmove` line writes the committed result into slot `moveIndex+1`, drains on, and leaves `tempEval` as the committed object itself (carrying the move token) unless a new item was queried, when it is empty; coverage is kept |
| Pipeline.ReviewPipeline.OnEngineMessage | script.js:538-558 | while a review is open the line is handled as `handleAnalysisMessage` does and no live move results; otherwise the analysis state is untouched (the queue stalls) and a `bestmove` line with a move token becomes the live move `LiveEngineMove` reads |
| Pipeline.ReviewPipeline.RecordScore | script.js:581-593 | the pending score becomes the line's score in White's point of view; nothing else changes |
| Pipeline.ReviewPipeline.CommitBestMove | script.js:599-625 | the current item's slot receives the committed result and the queue drains on; `tempEval` becomes the committed object (the same object, now carrying the move token) unless a new item was queried, when it is empty; a covered review stays covered and keeps the results' length |
| Pipeline.ReviewPipeline.AnswerQuery | script.js:538-626 | for a whole engine reply, the queried slot receives the last score line's score (or cp 0) with the move token, and the queue drains on; `tempEval` is then that committed score unless a new item was queried; coverage is kept |
| Statistics.Bump | script.js:1088-1090 | exactly one counter, the move's class, goes up by one |
| Statistics.BumpTotal | script.js:1088-1090 | one bump adds exactly one to the side's total, and a graded class leaves book, brilliant and great alone |
| Statistics.SideAccuracy | script.js:1133-1134 | 0 without rated moves; otherwise the mean rounded to the nearest integer, at most 100, and exactly 100 when every move was perfect |
| Statistics.RoundedMean | script.js:1133-1134 | `(a + m) / 2m` is within half a point of the mean `a / 2m`, and is capped at 100 |
| Statistics.RatingBounds | script.js:1071-1095 | every rated move gets one of the six graded classes and at most 100 accuracy |
| Statistics.AddRatingKeeps | script.js:1088-1095 | counting one more graded move of at most 100 accuracy keeps the counters summing to the move count and the accuracy within 100 per move |
| Statistics.TallyConsistent | script.js:1002-1097 | in `Tally` (a side's counters, accuracy total and move count over the first n moves), each rated move is counted exactly once under one of the six graded classes; book, brilliant and great stay 0; accuracy is at most 100 per move; a side rates at most its own moves |
| Statistics.TallyComplete | script.js:1040-1048 | a move is rated when both adjacent results are present, so with every result present each of a side's moves is rated |
| Statistics.RenderMoveList | script.js:997-1134 | the loop's counters, accuracy totals and move counts equal the tallies, and the shown accuracies are their rounded means |
| Statistics.UpdateCoach | script.js:1195-1342 | hidden out of review; the index is clamped to 0..N; 0 shows the start message; otherwise the verdict on that move; a suggestion (and an arrow) appears exactly for an inaccuracy, mistake or blunder whose pre-move result has a non-empty `bestMove`, and it is that `bestMove` |
| Statistics.CoachAgreesWithMoveList | script.js:1226-1244 | wherever the move list rates a move, the coach's `CoachVerdict` gives the same class |
| Statistics.CoachClampsPastEnd | script.js:1205-1207 | an index past the end shows the last move |
| Statistics.BarSlot | script.js:1433-1434 | the bar reads an existing slot, and the requested index itself when it is in range |
| Statistics.UpdateEvalBar | script.js:1430-1456 | the bar is unchanged exactly when the slot has no result; a mate fills it for White exactly when its value is positive and for Black exactly when it is not; any other score draws the logistic share |
| Statistics.EvalBarShowsMatingSide | script.js:1444-1455 | the recorded mate of a terminal position fills the bar for the side that delivered mate |
| Navigation.NavigateTarget | script.js:38-53 | the new step is always -1 or in [0, total-1] |
| Navigation.NavigateMovesByOffset | script.js:38-53 | the board moves by the offset, stopping at either end, and is live exactly when it reaches the last position |
| Navigation.ReviewStepAsWrittenBounds | script.js:1410-1426 | `ReviewStepAsWritten` (the stepping of `reviewNav` as written): `next` never exceeds the move count, `prev` never goes below -1, and `retry` always decrements with no guard |
| Navigation.PrevAtStartShowsLastPosition | script.js:1417-1421 | as written, `prev` at the first position shows the last position, and `next` from there shows the first |
| Navigation.ReviewStep | script.js:1410-1426 | corrected stepping: a button always lands on a position in 0..N |
| Navigation.ReviewStepMovesByOne | script.js:1410-1426 | corrected: each button moves the board by one position, or not at all at the end it points to |
| Navigation.ReviewStepAgreesInside | script.js:1410-1421 | away from the ends, the corrected stepping does what the code does |
| Navigation.HistoryCursor.constructor | script.js:326 | live view, not reviewing |
| Navigation.HistoryCursor.ViewIndex | script.js:70-72 | the panels show the last position when live, else the step |
| Navigation.HistoryCursor.StartReview | script.js:336-360 | review opens at the start position |
| Navigation.HistoryCursor.CloseReview | script.js:373-374 | review closes and the step is kept |
| Navigation.HistoryCursor.NavigateHistory | script.js:38-53 | the step becomes `NavigateTarget`, and the board moves by the offset within the game |
| Navigation.HistoryCursor.ReviewNav | script.js:1410-1426 | outside a review nothing changes; inside, the step follows the corrected `ReviewStep` |
| Navigation.HistoryCursor.SelectMove | script.js:1121-1124 | clicking move i shows position i+1 |
| Navigation.HistoryCursor.Panels | script.js:70-75 | in review, the bar and the coach are drawn for the viewed index; otherwise they are not drawn |
| Navigation.ClickedMoveIsReviewed | script.js:1121-1127 | after clicking move i, the coach reviews exactly that move, and the bar shows its result when there is one |
| Captured.OrderIsByRank | script.js:898 | the lost list's kind order is p, n, b, r, q |
| Captured.LostUpToCounts | script.js:900-906 | after the first j kinds, each kind appears exactly `max(0, start − on board)` times if it is among them, otherwise never |
| Captured.RepeatCount | script.js:902 | the push loop adds exactly n copies of the kind |
| Captured.LostUpToOrdered | script.js:898-906 | the lost list is sorted by kind order |
| Captured.LostListIsCaptures | script.js:895-906 | each colour's lost list holds each kind exactly `max(0, start − on board)` times, kings never, in p, n, b, r, q order |
| Captured.MaterialByCounts | script.js:909-918 | material is the 1/3/3/5/9-weighted count of a side's pieces |
| Captured.WeightedStep | script.js:913-918 | one more piece adds its value to its side's material |
| Captured.DiffIsCapturedValue | script.js:875-920 | without promotions, the material difference equals the value of Black's lost pieces minus the value of White's |
| Captured.FullSetSplits | script.js:875-909 | pieces on the board and lost pieces together are worth the 39 points of a starting set |
| Captured.ScoreLabels | script.js:980-993 | nothing when level; otherwise `+lead` on the leader's row, which is the bottom row exactly when the leader is the side the board is seen from |
| Captured.ScoreLabelsFlip | script.js:980-993 | turning the board swaps the two labels, and negating the difference while turning the board changes nothing |
| Captured.ScoreLabelReadsBack | script.js:983-993 | one row stays empty, and the label reads back as the size of the lead |
| Captured.CountPieces | script.js:880-890 | the ten counters equal the number of each non-king piece on the board |
| Captured.CollectLost | script.js:895-906 | the two lists built by the loops are exactly the lost lists |
| Captured.MaterialDiff | script.js:909-920 | the loop computes White's material minus Black's |
| Captured.ExtendRun | script.js:950-952 | a piece equal to the current run's extends that run |
| Captured.StartRun | script.js:953-956 | a different piece closes the run and starts a new one |
| Captured.RenderGrouped | script.js:943-958 | the groups are maximal runs of equal pieces whose concatenation is the input, and there are no groups exactly when there are no pieces |
| Captured.UpdateCapturedPieces | script.js:874-994 | seen from White, the top row groups White's lost pieces and the bottom row Black's (the reverse when seen from Black), and the score labels follow the material difference |
| Rooms.Opposite | server.js:55 | the joiner's colour is always a real colour and differs from the creator's; it is black exactly against white |
| Rooms.OppositeTwice | server.js:55 | the colour assignment is an involution on white and black |
| Rooms.CodeOfIsRoomCode | server.js:24 | every draw gives the six-digit decimal text of a number in 100000..999999 |
| Rooms.CodeOfInjective | server.js:24 | different draws give different codes |
| Rooms.WellKeyedAdd | server.js:24-32 | storing a one-player room under a fresh six-digit code keeps every key a room code and every room well formed |
| Rooms.FindPlayer | server.js:82 | `findIndex` is -1 exactly when no player has the id; otherwise it is the first position that does |
| Rooms.JoinStepOf | server.js:40-67 | an unknown code is refused with 'Invalid Room Code' and a full room with 'Room is full'; otherwise the game starts with the creator first and the joiner second, in the opposite colour |
| Rooms.SecondJoinIsRefused | server.js:48-57 | once a room has started, every further join is refused as full |
| Rooms.LookupAsWritten | server.js:41 | `rooms[code]` finds an own room exactly for a key of the table, and an inherited property for an `Object.prototype` name that is not one |
| Rooms.PrototypeKeyCrashesJoin | server.js:41-48 | as written, joining "constructor" throws on every reachable table; the corrected join refuses it |
| Rooms.JoinAsWrittenAgreesElsewhere | server.js:41-67 | for every code but an inherited name, `JoinAsWritten` (the handler as written) and the corrected join agree |
| Rooms.FirstRoomWithIsFirst | server.js:81-88 | `FirstRoomWith` (the search of the `disconnect` handler) returns the least room number that lists the socket, or nothing when none does |
| Rooms.FirstRoomWithFindsAny | server.js:81-89 | on a table of room codes, a room is found exactly when some room lists the socket |
| Rooms.DisconnectOutcome | server.js:81-89 | on a well-formed table, the search finds nothing exactly when no room lists the socket; otherwise it finds a room that lists it, and deleting that room leaves the table well formed |
| Rooms.LeaveAll | server.js:79 | the socket has left every channel and no one else has |
| Rooms.RoomServer.constructor | server.js:14 | no rooms, no channels, no emissions |
| Rooms.RoomServer.CreateRoom | server.js:20-37 | the code is the first draw not in use; it is a six-digit code; the new room has exactly the creator, in the chosen colour, with White to move; every other room is unchanged; the creator joins the channel and alone receives `room_created`; the invariant (one or two players, a second player of the opposite colour) holds |
| Rooms.RoomServer.JoinRoom | server.js:40-70 | a refusal sends one error to the requester and changes nothing; a success appends the joiner, adds it to the channel, and sends `start_game` with [creator, joiner] to the whole channel; at most two players stays invariant; the lookup is the corrected one (see Left out) |
| Rooms.RoomServer.Relay | server.js:73-76 | the move goes unchanged to every other socket of the channel, never back to the sender, and no room changes |
| Rooms.RoomServer.Disconnect | server.js:79-90 | the socket leaves every channel; the first room in key order that lists it is deleted and its remaining channel told `opponent_disconnected`; nothing else changes, and nothing at all when no room lists it |

## Left out

- DOM and display code is not modelled: modals, board painting, icons, sounds, the progress percentage, and the text of the status line, the badges and the evaluation text (`toFixed`).
- The logistic height of the evaluation bar is not modelled, because it is floating point. `Statistics.UpdateEvalBar` records the value it would be drawn from.
- The chess rules library is not part of this model: move application, FEN, terminal-state queries, `board()`, PGN loading, and the board replay of `renderCurrentView`. Positions and board contents are inputs.
- The live-game branch of the engine handler stops at the move it reads: `game.move`, `isComputerThinking` and `onMoveMade` are not part of this model (`Pipeline.ReviewPipeline.OnEngineMessage` returns the move). `reviewMode` is a parameter there, since it belongs to the history cursor.
- The engine worker is not part of this model: `fetch`, `Worker`, `postMessage` delivery. Engine replies are given lines, and sent lines are recorded.
- `setTimeout` chaining in `processAnalysisQueue` is collapsed into one loop. Messages interleaving with those timers are not modelled.
- There is no guard against stale engine replies, because the code has none. `window.currentAnalysisItem` is kept after the last item, exactly as the code does.
- `isAnalyzing` and `console.log` are not modelled; they have no effect on the state the model tracks.
- `generateExplanation` is not part of this model.
- `onSquareClick` selection is not modelled, because it is driven entirely by rules-library calls.
- Uci.SkillLevel: the Elo is an integer and rounding is exact. The floating-point evaluation of `(elo-400)/2800*20` is not modelled, nor how `Math.round` treats a value that floating point puts off a half.
- JavaScript number details are not modelled: `-0`, and precision beyond 2^53.
- `parseInt` skips only the white space listed in `JsText.IsJsWhitespace`: tab, line feed, vertical tab, form feed, carriage return, space, no-break space, the line and paragraph separators, and the byte-order mark. Other Unicode space separators are not modelled.
- socket.io transport is reduced to channel membership and recipient sets. A socket's own channel, acknowledgements, and delivery order across sockets are not modelled.
- Rooms.RoomServer.CreateRoom: `Math.random` becomes a sequence of draws that must contain a free code. The code loops until it finds one, so a run where no draw is free is not modelled.
- Rooms.RoomServer.Disconnect: iteration order is taken as ascending numeric order of the codes, which is how `Object.entries` lists six-digit integer keys. The table holds only such keys.
- Navigation.HistoryCursor.ReviewNav: steps as the corrected `Navigation.ReviewStep` does, not as the code does. The code's own stepping is `Navigation.ReviewStepAsWritten`. So the method does not capture `prev` at step 0 going to -1 (the last position), `next` from -1 going to 0, or `retry` at 0 going to -1 (see Findings).
- Rooms.RoomServer.JoinRoom: answers as the corrected `Rooms.JoinStepOf` does. For a code that names an inherited `Object.prototype` property, the code throws inside the handler and emits nothing. The method instead refuses it with 'Invalid Room Code'. That crash is modelled only by `Rooms.JoinAsWritten` and `Rooms.PrototypeKeyCrashesJoin` (see Findings).
- The server's `express` static file serving and `listen` are not modelled.

## Findings

| source | as written | input that shows it | evidently intended | confidence | as-written member | corrected member |
|---|---|---|---|---|---|---|
| script.js:1417-1424 | `prev` decrements while the step is above -1. From the start position (step 0) it reaches -1, which is the live view, the game's last position. `next` from there jumps back to the start. `retry` decrements with no guard at all. | in review of a game of N ≥ 1 moves, at step 0, press `prev` | `prev` (and `retry`) stop at the start position, and `next` steps forward from the position on the board | medium: the guard `> -1` and the unguarded `retry` read as off-by-one; not executed | Navigation.PrevAtStartShowsLastPosition | Navigation.ReviewStepMovesByOne |
| server.js:41-48 | `rooms[roomCode]` on a plain object also finds inherited `Object.prototype` members. For "constructor", `!room` is false, `room.players` is undefined, and reading `.length` throws a TypeError inside the handler. No error reaches the requester. The page only sends 6-character codes, so a raw socket.io client is needed to send this. | `join_room` with `{ roomCode: "constructor" }` | an 'Invalid Room Code' reply, like every other refusal in server.js | high: follows from JavaScript property lookup; not executed | Rooms.PrototypeKeyCrashesJoin | Rooms.JoinStepOf |
