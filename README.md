# Chess game analysis — a verified model of its core

This project models the core of a chess-analysis web application in Dafny. A user links a Chess.com account. The backend collects their recent games from the monthly Chess.com archives. The game list classifies and paginates those games. On the analysis board, a game's moves are replayed, and a Stockfish engine in a Web Worker evaluates the final position over the UCI protocol.

The model has six modules:

- `Wrappers`: the `Option` type.
- `Text`: the string primitives the code relies on. These are JavaScript `trim`, `split` on one character, `includes`, `parseInt` and lower-casing.
- `UciCodec` (`stockfishAnalysis.js`): `parseInfoLine`, `parseBestMove`, and the commands sent after the handshake. Each regular expression is modelled by the leftmost index at which it matches. An encoder for the score token gives the decoder a round trip.
- `EngineSession` (`stockfishAnalysis.js`): one `analyzePosition` request.
  - `Session` is the whole state as a value, and the `Handle…` functions are its transitions.
  - The class `AnalysisRequest` keeps the same state in fields. Its handlers `OnMessage`, `OnError` and `OnTimeout` update it in place and are proved equal to those transitions.
  - The worker, the timer and the promise become events fed in sequence. A promise settles once (`Settle`).
- `GameReplay` (`AnalyzeGame.jsx`): navigation over the move list, moves tried on the board, the numbered move rows, the evaluation bar and the result text.
  - The chess rules are a parameter `Rules`, which holds the initial position, a partial move function, FEN output, and the move a drag stands for.
  - The class `AnalyzeGame` keeps cursor, shown position and board. Its handlers are proved against the functions `GoTo`, `ToStart`, `ToEnd`, `ToPrevious`, `ToNext` and `Drop`.
- `GameList` (`Analysis.jsx`): the user's side, result and opponent, the speed class of a time control, the 10-per-page slice, the page count, and the clamped page buttons (class `Pager`).
- `Archive` (`chess_com.py`): the allowed time classes, the number of months to fetch, the backwards month walk, and the per-month filter.
  - The month request is a parameter `fetch`.
  - `FetchGames` keeps the source's two nested loops. It is proved equal to `Collect` over `Walk`.

The code and the system's design description disagree in places, and the model follows the code:

- The code runs the engine once, on the final position of the game (`frontend/src/pages/AnalyzeGame.jsx` lines 74-97). Navigation never re-runs it.
- The code has no debounce, no request generations and no `stop` command.
- A timeout rejects the promise without setting `resolved`.

## Model

| member | source | states |
|---|---|---|
| Text.Trim | frontend/src/engine/stockfishAnalysis.js:67 | the result neither starts nor ends with white space, and is the infix of the input with only white space outside it |
| Text.Split | frontend/src/engine/stockfishAnalysis.js:67 | at least one piece, no piece contains the separator, and joining the pieces with the separator gives the input back |
| Text.SplitCons | frontend/src/engine/stockfishAnalysis.js:67 | the text before the first separator is the first piece, and the rest splits on its own |
| Text.ParseInt | frontend/src/pages/Analysis.jsx:127 | a non-empty run of decimal digits reads as its decimal value |
| Text.ParseIntDecimal | frontend/src/pages/Analysis.jsx:127 | after white space and one optional sign, the longest run of decimal digits is read and what follows is ignored, so `1/86400` reads 1; a `-` negates |
| Text.ParseIntHex | frontend/src/pages/Analysis.jsx:127 | a `0x` or `0X` prefix reads the following hexadecimal digits, and gives NaN when none follows |
| Text.ParseIntNaN | frontend/src/pages/Analysis.jsx:127 | with no digit after the white space and the optional sign, the result is NaN |
| Text.Lower | frontend/src/pages/Analysis.jsx:106 | same length, every ASCII capital mapped to its lower-case letter, everything else kept |
| UciCodec.ScoreIndex | frontend/src/engine/stockfishAnalysis.js:20 | the regular expression fails exactly when the line has no score token; otherwise it matches at the leftmost index where a score token starts |
| UciCodec.FirstScore | frontend/src/engine/stockfishAnalysis.js:20-23 | no score exactly when the line has no `score cp|mate <int>` token |
| UciCodec.PvText | frontend/src/engine/stockfishAnalysis.js:24-25 | the principal variation is trimmed, and is empty when no ` pv ` is followed by a character on the same line |
| UciCodec.PvTextAt | frontend/src/engine/stockfishAnalysis.js:24-25 | where ` pv ` followed by a non-newline matches leftmost, the text is the rest of that line after it, trimmed |
| UciCodec.PvRoundTrip | frontend/src/engine/stockfishAnalysis.js:24-25 | decoding after an encoding: after a prefix where ` pv ` cannot match, the one-line text written after ` pv ` is read back trimmed |
| UciCodec.SideToMove | frontend/src/engine/stockfishAnalysis.js:53 | `'w'` exactly when the FEN contains ` w `, `'b'` otherwise |
| UciCodec.FromWhite | frontend/src/engine/stockfishAnalysis.js:28-30 | the kind is kept; the value is kept with White to move and negated otherwise |
| UciCodec.ScoreOf | frontend/src/engine/stockfishAnalysis.js:101-109 | the evaluation of a parsed line: its Mate when present, otherwise its Centipawn, and 0 centipawns when neither is set |
| UciCodec.ParseInfoLine | frontend/src/engine/stockfishAnalysis.js:19-37 | null exactly when there is no score token; otherwise exactly one of Centipawn and Mate is set, the score is the leftmost token seen from White's side, and Line is the trimmed pv text |
| UciCodec.SidesDisagreeInSign | frontend/src/engine/stockfishAnalysis.js:28-30 | read with White or with Black to move, one line gives the same kind and pv text, with opposite values |
| UciCodec.Rank | frontend/src/engine/stockfishAnalysis.js:82-83 | the rank is 1 when no ` multipv <digits>` occurs |
| UciCodec.ReadsInt | frontend/src/engine/stockfishAnalysis.js:20-23 | `-?\d+` followed by a non-digit reads a rendered integer back as that integer |
| UciCodec.TokenReadAt | frontend/src/engine/stockfishAnalysis.js:20-23 | an encoded score token matches where it is placed and carries the encoded score |
| UciCodec.ScoreRoundTrip | frontend/src/engine/stockfishAnalysis.js:16-23 | decoding after an encoding: a score token after a prefix in which no score token matches (such as `seldepth 24`) is read back exactly, when no digit follows it |
| UciCodec.InfoScoreRoundTrip | frontend/src/engine/stockfishAnalysis.js:19-35 | a line built from a score after a prefix without a score token parses to that score, kept or negated by side to move, in Centipawn or Mate by kind, with the other unset |
| UciCodec.ParsedScore | frontend/src/engine/stockfishAnalysis.js:19-35 | a line whose leftmost score token is a given score parses to it, in Centipawn or Mate by kind with the other unset, negated with Black to move |
| UciCodec.InfoLineRoundTrip | frontend/src/engine/stockfishAnalysis.js:19-37 | a whole line built from a score and a one-line principal variation parses to the record of that score from White's side and the trimmed variation |
| UciCodec.CentipawnExample | frontend/src/engine/stockfishAnalysis.js:16-36 | `... score cp 25 pv e2e4` parses to Centipawn +25 with White to move and -25 with Black, Mate unset, and Line `e2e4` |
| UciCodec.MateExample | frontend/src/engine/stockfishAnalysis.js:17-36 | `... score mate 3 pv e2e4` parses to Mate +3 with White to move and -3 with Black, Centipawn unset, and Line `e2e4` |
| UciCodec.ParseBestMove | frontend/src/engine/stockfishAnalysis.js:42-45 | a move exactly when the line starts with `bestmove ` followed by a non-space; the move is the non-empty run of non-space characters there, ending at white space or the end |
| UciCodec.BestMoveIgnoresSuffix | frontend/src/engine/stockfishAnalysis.js:39-44 | `bestmove m` followed by a ponder suffix or anything starting with white space gives `m` |
| UciCodec.StartCommands | frontend/src/engine/stockfishAnalysis.js:72-75 | four commands in order: `ucinewgame`, `position fen <fen>`, `setoption name MultiPV value 3`, `go depth 18` |
| EngineSession.PresentRanks | frontend/src/engine/stockfishAnalysis.js:96-98 | the ranks among 1, 2, 3 present in the table, strictly ascending |
| EngineSession.TopLines | frontend/src/engine/stockfishAnalysis.js:96-98 | at most three lines, the table's lines at the present ranks in ascending order |
| EngineSession.Assemble | frontend/src/engine/stockfishAnalysis.js:111-115 | the result's top lines are the present ranks' lines, and its best move is the parsed move or `''` |
| EngineSession.AssembleEvaluation | frontend/src/engine/stockfishAnalysis.js:100-113 | the evaluation is the score of the best-ranked line present, `cp 0` when there is none, and `best_move` is `''` when null |
| EngineSession.Lines | frontend/src/engine/stockfishAnalysis.js:66-67 | every line of a batch is non-empty and trimmed; which lines, and in what order, is stated by `LinesCons` and `LinesSingle` |
| EngineSession.LinesCons | frontend/src/engine/stockfishAnalysis.js:67 | the text before the first newline gives its trimmed self as the first line unless blank, followed by the lines of the rest |
| EngineSession.LinesSingle | frontend/src/engine/stockfishAnalysis.js:67 | a text without a newline is one trimmed line, or none when it is blank |
| EngineSession.Start | frontend/src/engine/stockfishAnalysis.js:51-63 | the state right after the call: handlers installed, timer set, worker running, `uci` posted, nothing recorded, promise pending |
| EngineSession.HandleLine | frontend/src/engine/stockfishAnalysis.js:68-118 | one line of a batch: only `uciok` and a `bestmove` line end the batch, only `uciok` posts commands, and the position is never changed |
| EngineSession.HandleLines | frontend/src/engine/stockfishAnalysis.js:68-118 | the loop over a batch: each line in turn until one ends the batch |
| EngineSession.HandleError | frontend/src/engine/stockfishAnalysis.js:121-128 | the error handler clears the timer, stops the worker and sets `resolved`; it rejects a pending unresolved promise with the error and leaves a resolved one alone |
| EngineSession.HandleTimeout | frontend/src/engine/stockfishAnalysis.js:56-59 | a cleared timer never fires; a set one stops the worker, rejects a pending promise with the timeout, and leaves `resolved` and the table as they were |
| EngineSession.StartValid | frontend/src/engine/stockfishAnalysis.js:55-63 | a new request is pending, with the timer set, the worker running and `uci` sent |
| EngineSession.HandleLineValid | frontend/src/engine/stockfishAnalysis.js:68-117 | one line keeps the invariant: timer and worker alive exactly while pending, `resolved` only when settled, table lines well shaped |
| EngineSession.HandleLinesValid | frontend/src/engine/stockfishAnalysis.js:65-119 | a whole batch keeps the invariant |
| EngineSession.ErrorAndTimeoutValid | frontend/src/engine/stockfishAnalysis.js:121-128 | an error and the timer keep the invariant |
| EngineSession.SettledStaysSettled | frontend/src/engine/stockfishAnalysis.js:89-117 | no batch of output changes a settled promise: it resolves at most once |
| EngineSession.SettledIgnoresErrorAndTimeout | frontend/src/engine/stockfishAnalysis.js:121-128 | an error or a timeout leaves a settled promise as it is |
| EngineSession.PendingTimesOut | frontend/src/engine/stockfishAnalysis.js:56-59 | a pending request is always rejected by the timer, which stops the worker |
| EngineSession.UciOkStartsSearch | frontend/src/engine/stockfishAnalysis.js:71-77 | `uciok` appends the four start commands in order, changes nothing else, and ends the batch |
| EngineSession.BestMoveResolves | frontend/src/engine/stockfishAnalysis.js:89-116 | the first `bestmove` of a pending request resolves it with the table as it stands, records the move, clears the timer and stops the worker; the table, the posted commands and the position are unchanged, whatever follows in the batch |
| EngineSession.BestMoveAfterResolved | frontend/src/engine/stockfishAnalysis.js:89-100 | a `bestmove` after the request was already settled records the move, clears the timer and stops the worker, and leaves the outcome and the table alone |
| EngineSession.IgnoredLine | frontend/src/engine/stockfishAnalysis.js:72-117 | any other line (`id`, `option`, `readyok`, `info string`, an `info` line without ` multipv ` or without a score) leaves the session unchanged and the loop goes on |
| EngineSession.InfoLineRecorded | frontend/src/engine/stockfishAnalysis.js:79-87 | an `info` line with ` multipv ` and a score is stored under its rank, and the loop goes on |
| EngineSession.HandleLinesStep | frontend/src/engine/stockfishAnalysis.js:68-118 | a line that continues hands the rest of the batch on, and a line that breaks ends the batch |
| EngineSession.LaterLineOverwrites | frontend/src/engine/stockfishAnalysis.js:79-85 | of two lines for the same rank the later one is kept, and the other ranks are untouched |
| EngineSession.AnalysisRequest.constructor | frontend/src/engine/stockfishAnalysis.js:55-63 | the fields hold the start state, which satisfies the invariant |
| EngineSession.AnalysisRequest.OnMessage | frontend/src/engine/stockfishAnalysis.js:65-67 | the new state is the batch transition on the trimmed non-empty lines of the text; the invariant is kept; a settled promise is unchanged |
| EngineSession.AnalysisRequest.HandleBatch | frontend/src/engine/stockfishAnalysis.js:68-118 | the loop with `break`/`continue` ends in the state the batch transition gives; the invariant is kept; a settled promise is unchanged |
| EngineSession.AnalysisRequest.HandleOne | frontend/src/engine/stockfishAnalysis.js:72-117 | the loop body for one line changes the fields exactly as the one-line transition does, and returns `Stop` where the code breaks |
| EngineSession.AnalysisRequest.OnError | frontend/src/engine/stockfishAnalysis.js:121-128 | the new state is the error transition; once resolved, the promise is unchanged |
| EngineSession.AnalysisRequest.OnTimeout | frontend/src/engine/stockfishAnalysis.js:56-59 | the new state is the timeout transition; a pending request is rejected with a timeout |
| GameReplay.RefusedStaysRefused | frontend/src/pages/AnalyzeGame.jsx:105-109 | once a move of the replay is refused, no longer prefix can be replayed |
| GameReplay.PrefixPlayable | frontend/src/pages/AnalyzeGame.jsx:105-109 | every prefix of a playable move list replays |
| GameReplay.PositionAfter | frontend/src/pages/AnalyzeGame.jsx:102-109 | the position after the first k moves replayed on a fresh board, or none when the rules refuse one of them |
| GameReplay.GoTo | frontend/src/pages/AnalyzeGame.jsx:99-114 | `goToMove`: the guard, the replay from a fresh board, and the three state updates; see the lemmas below |
| GameReplay.ToStart | frontend/src/pages/AnalyzeGame.jsx:116-120 | `goToStart`: cursor -1, `start`, a fresh board |
| GameReplay.ToEnd | frontend/src/pages/AnalyzeGame.jsx:122-126 | `goToEnd`: `goToMove` of the last index, only when there are moves |
| GameReplay.ToPrevious | frontend/src/pages/AnalyzeGame.jsx:128-130 | `goToPrevious`: `goToMove` of the cursor minus one |
| GameReplay.ToNext | frontend/src/pages/AnalyzeGame.jsx:132-136 | `goToNext`: `goToMove` of the cursor plus one, only before the last move |
| GameReplay.Drop | frontend/src/pages/AnalyzeGame.jsx:139-154 | `onDrop`: the dragged move played on the current board, or nothing and `false` when refused |
| GameReplay.GoToInRange | frontend/src/pages/AnalyzeGame.jsx:99-114 | for `-1 <= i < length`, the cursor becomes `i` and the board is the replay of moves `0..i` from a fresh board, shown as `start` for `-1` and as its FEN otherwise |
| GameReplay.GoToOutOfRange | frontend/src/pages/AnalyzeGame.jsx:100 | an index below -1 or past the last move changes nothing |
| GameReplay.GoToRefused | frontend/src/pages/AnalyzeGame.jsx:102-109 | when the rules refuse a move of the replay (a game set up from another position), the view is left as it was |
| GameReplay.GoToForgetsView | frontend/src/pages/AnalyzeGame.jsx:102-113 | the result of going to a move does not depend on the previous view, so going there twice equals going there once |
| GameReplay.StartIsMoveMinusOne | frontend/src/pages/AnalyzeGame.jsx:116-120 | `goToStart` equals `goToMove(-1)` |
| GameReplay.EndShowsFinalPosition | frontend/src/pages/AnalyzeGame.jsx:122-126 | `goToEnd` does nothing on an empty list; otherwise it shows the position after all moves, the one analysed |
| GameReplay.StepsMoveByOne | frontend/src/pages/AnalyzeGame.jsx:128-136 | Next moves the cursor one forward unless on the last move, where it does nothing; Previous moves it one back unless at -1, where the guard makes it a no-op |
| GameReplay.NextThenPrevious | frontend/src/pages/AnalyzeGame.jsx:128-136 | Next then Previous shows the replayed position of the original cursor |
| GameReplay.NavigationDiscardsTriedMoves | frontend/src/pages/AnalyzeGame.jsx:99-114 | navigating after trying moves on the board gives the same view as without them |
| GameReplay.AnalyzeGame.constructor | frontend/src/pages/AnalyzeGame.jsx:11-14 | an empty move list, cursor -1, `start` and a fresh board |
| GameReplay.AnalyzeGame.Load | frontend/src/pages/AnalyzeGame.jsx:57-72 | loading a game sets any move list the library produced, cursor -1, `start` and a fresh board |
| GameReplay.AnalyzeGame.GoToMove | frontend/src/pages/AnalyzeGame.jsx:99-114 | the replay loop ends in the view `GoTo` describes; the cursor stays in range |
| GameReplay.AnalyzeGame.GoToStart | frontend/src/pages/AnalyzeGame.jsx:116-120 | the new view is `ToStart` of the old one |
| GameReplay.AnalyzeGame.GoToEnd | frontend/src/pages/AnalyzeGame.jsx:122-126 | the new view is `ToEnd` of the old one |
| GameReplay.AnalyzeGame.GoToPrevious | frontend/src/pages/AnalyzeGame.jsx:128-130 | the new view is `ToPrevious` of the old one |
| GameReplay.AnalyzeGame.GoToNext | frontend/src/pages/AnalyzeGame.jsx:132-136 | the new view is `ToNext` of the old one |
| GameReplay.AnalyzeGame.OnDrop | frontend/src/pages/AnalyzeGame.jsx:139-154 | the new view and the answer are those of `Drop`; the move list is unchanged |
| GameReplay.MovePairs | frontend/src/pages/AnalyzeGame.jsx:192-204 | `ceil(n/2)` rows; row k is numbered k+1 and holds plies 2k and 2k+1, with no Black move only in a last row of an odd count; the rows read in order give back the moves |
| GameReplay.UnpairSnoc | frontend/src/pages/AnalyzeGame.jsx:192-204 | one more row appends its White ply and, when present, its Black ply to the plies read back |
| GameReplay.Clamp | frontend/src/pages/AnalyzeGame.jsx:219 | the value limited to [-5, 5], unchanged inside that range |
| GameReplay.EvalBarHeight | frontend/src/pages/AnalyzeGame.jsx:211-222 | 50 without an evaluation; always within [0, 100]; 100 for a positive mate and 0 for any other mate; 100 from +500 cp and 0 from -500 cp; in between, 50 plus one tenth of the centipawns, ten points per pawn |
| GameReplay.EvalBarMonotone | frontend/src/pages/AnalyzeGame.jsx:215-221 | a higher centipawn score never lowers the bar |
| GameReplay.EvalBarMirror | frontend/src/pages/AnalyzeGame.jsx:215-221 | negating the score mirrors the bar, except for mate 0 |
| GameReplay.ResultText | frontend/src/pages/AnalyzeGame.jsx:184-189 | empty before a game is loaded; `1-0` exactly when White won; `0-1` exactly when White did not and Black won; a draw otherwise |
| GameList.LowerOpt | frontend/src/pages/Analysis.jsx:106 | a missing name stays missing, and a present one is lower-cased |
| GameList.IsUserWhite | frontend/src/pages/Analysis.jsx:106 | the user is White when White's lower-cased name equals the user's lower-cased name, two missing names comparing equal |
| GameList.GameResult | frontend/src/pages/Analysis.jsx:105-115 | Won exactly for the user's `win`; Lost exactly for `checkmated`, `resigned`, `timeout` or `abandoned`; Draw for anything else or nothing |
| GameList.VerdictText | frontend/src/pages/Analysis.jsx:110-114 | the text `Won`, `Lost` or `Draw` names the verdict, and the style class is `result-` followed by `win`, `loss` or `draw` |
| GameList.ResultBadge | frontend/src/pages/Analysis.jsx:105-115 | `getGameResult`'s pair: `Won`/`result-win` exactly for the user's `win`, `Lost`/`result-loss` exactly for the four loss strings, `Draw`/`result-draw` otherwise |
| GameList.Opponent | frontend/src/pages/Analysis.jsx:117-120 | Black when the user is White, White otherwise |
| GameList.CaseInsensitiveSide | frontend/src/pages/Analysis.jsx:106-107 | two spellings of a name that agree in lower case get the same side, result and opponent |
| GameList.ColourBlind | frontend/src/pages/Analysis.jsx:117-120 | when the user is exactly one of the players, exchanging the colours keeps the opponent and the result |
| GameList.TimeControl | frontend/src/pages/Analysis.jsx:122-124 | Unknown exactly when the time control is missing or empty |
| GameList.Classify | frontend/src/pages/Analysis.jsx:130-133 | Bullet exactly under 180, Blitz from 180 under 600, Rapid from 600 under 1800, Classical from 1800 on or for NaN |
| GameList.BaseDecides | frontend/src/pages/Analysis.jsx:126-133 | a time control with a non-empty base and any increment is classed by `parseInt` of the base alone |
| GameList.IncrementIgnored | frontend/src/pages/Analysis.jsx:126-133 | a decimal base, with or without `+increment`, is Bullet under 180, Blitz under 600, Rapid under 1800 and Classical from 1800 on; the increment never matters |
| GameList.DailyBase | frontend/src/pages/Analysis.jsx:127 | `parseInt("1/86400")` stops at the `/` and reads 1 |
| GameList.DailyReadsLeadingNumber | frontend/src/pages/Analysis.jsx:126-133 | the daily format `1/86400` is read up to the `/`, a one-second base, and classed as Bullet |
| GameList.Slice | frontend/src/pages/Analysis.jsx:136-139 | the length is the clipped range, and each element is the one at the same offset from the start |
| GameList.PageOf | frontend/src/pages/Analysis.jsx:136-139 | the games of page p: `slice((p-1)*10, p*10)` |
| GameList.PageContents | frontend/src/pages/Analysis.jsx:136-139 | a page holds at most 10 games, those from index (p-1)*10 in order, and is full unless it is the last |
| GameList.PagesPartition | frontend/src/pages/Analysis.jsx:136-139 | the first k pages in order are exactly the first 10k games, so pages neither overlap nor skip |
| GameList.TotalPages | frontend/src/pages/Analysis.jsx:141 | the least n with 10n >= total |
| GameList.AllPagesShowAllGames | frontend/src/pages/Analysis.jsx:136-141 | all pages together are the whole list when the count is its length |
| GameList.Pager.constructor | frontend/src/pages/Analysis.jsx:8-13 | no games, a count of 0, page 1 |
| GameList.Pager.Loaded | frontend/src/pages/Analysis.jsx:38-41 | a fetch stores `games` and `total`, each with its empty default, and returns to page 1 |
| GameList.Pager.Failed | frontend/src/pages/Analysis.jsx:42-45 | a failed fetch empties the list and keeps the page |
| GameList.Pager.Previous | frontend/src/pages/Analysis.jsx:278 | one page back, never below 1 |
| GameList.Pager.Next | frontend/src/pages/Analysis.jsx:274-292 | one page forward, never past the last page |
| Archive.AllowedClasses | backend/services/chess_com.py:27-31 | a non-empty subset of rapid, blitz and bullet: all three by default, the requested ones among them, or all three when none of them was requested |
| Archive.AllowedCases | backend/services/chess_com.py:27-31 | the intersection is the requested supported classes; it is empty exactly when no requested class is supported, and all three for the default request |
| Archive.MonthsToFetch | backend/services/chess_com.py:33 | 3, 12, 60 or 120 for the four timeframes, and 3 for any other |
| Archive.PreviousMonth | backend/services/chess_com.py:74-77 | the month before, still in 1..12, with January going to December of the year before |
| Archive.Walk | backend/services/chess_com.py:38-39 | exactly n months, each a valid month, the k-th k months before the start, each the month before the previous one |
| Archive.WalkBackwards | backend/services/chess_com.py:38-77 | the walk starts at the current month, is strictly decreasing in time, and visits no month twice |
| Archive.Store | backend/services/chess_com.py:53-70 | a kept record carries the lower-cased time class and the requested username |
| Archive.ClassOf | backend/services/chess_com.py:50 | the lower-cased time class, or the empty text when it is missing |
| Archive.Keep | backend/services/chess_com.py:49-52 | every kept game has an allowed time class and the username; never more games than given |
| Archive.KeepAppend | backend/services/chess_com.py:49-52 | filtering keeps source order: the games kept from a concatenation are those of each piece, in turn |
| Archive.KeepOne | backend/services/chess_com.py:50-52 | one game is kept exactly when its lower-cased time class is allowed |
| Archive.MonthGames | backend/services/chess_com.py:42-72 | a month adds nothing unless its response has status 200 |
| Archive.Collect | backend/services/chess_com.py:37-79 | every collected game has an allowed time class |
| Archive.FailedMonthSkipped | backend/services/chess_com.py:43-72 | a month that fails, is missing (404) or is refused adds the same as an empty month, and the walk goes on |
| Archive.CollectStep | backend/services/chess_com.py:39-77 | one more month appends that month's games |
| Archive.KeepPage | backend/services/chess_com.py:49-70 | the inner loop builds exactly the filtered page |
| Archive.FetchMonth | backend/services/chess_com.py:40-72 | one month adds exactly the kept games of a 200 response, and nothing for a 404, another status or a transport error |
| Archive.FetchGames | backend/services/chess_com.py:18-79 | the result is the games of the walked months, newest month first, each month's games filtered in order |

## Left out

- The chess rules (legality, FEN output, PGN parsing) belong to a library that is not part of this model. They are the parameter `Rules`, and `Load` receives the parsed move list.
- GameReplay.GoTo and the other navigation keep the view unchanged when the rules refuse a replayed move (`GoToRefused`). This matches a `move` that throws, because the exception leaves `goToMove` before any setter runs. With the null-returning API that the `move === null` check in `onDrop` and the `!loadPgn` check expect, `goToMove` would skip the refused move and still set the state. That variant is not modelled. A game set up from another position (a `[FEN]` header) loads but need not replay from the start, so the navigation lemmas take `Playable` as a hypothesis.
- The drag of a piece is `Rules.drop(from, to)`. The fixed promotion to a queen is part of that abstraction.
- The Web Worker, `setTimeout` and the Promise are events fed in order. The model keeps no other concurrency.
- The rejection values (the worker's error event and the timeout `Error`) are reduced to `WorkerError(message)` and `TimedOut`.
- `OnMessage` receives the message text. The choice between `e.data` and `e.data.data` is not modelled.
- After the worker is terminated, the model still accepts messages, although none arrive. A settled promise is unaffected by them (`SettledStaysSettled`).
- The worker script URL and worker creation failure are not modelled.
- `analyzeGame` reloads the PGN and analyses the final position once, and that operation is not modelled. `EndShowsFinalPosition` relates `goToEnd` to that position.
- React rendering, routing, session and local storage, the keyboard listener and state batching are left out. Each handler sees the latest state.
- `formatEval`, `formatLineEval` and `formatDate` are left out: they format floats and dates for display.
- GameReplay.EvalBarHeight uses exact real arithmetic where JavaScript uses doubles. The value `-0` and rounding of the division by 100 are not modelled.
- GameReplay.EvalBarMirror excludes mate 0. The code counts `mate 0` as Black mating on either side, so that bar does not mirror.
- Text.ParseInt reads digits into an unbounded integer. JavaScript's rounding of values beyond 2^53 and of `Infinity` is not modelled.
- Text.Lower maps ASCII letters only. Unicode case mapping of `toLowerCase` and Python's `lower` is not modelled.
- UciCodec.Rank, when a ` multipv <digits>` is present, is described by its definition only.
- `getTimeControl` computes an increment and never uses it. The model leaves that unused value out.
- Time controls that are not strings are not modelled.
- `total` in the game list comes from the server's response separately from the games. The model keeps it as an independent number.
- GameList.Pager.Next requires more than one page, because the button is only rendered then. Its disabled state at the last page is subsumed by the clamp.
- The HTTP client, the URL format and the 30-second client timeout are replaced by the `fetch` parameter. The current month is the parameter `now`.
- In `chess_com.py`, a response body that is not JSON raises an error the loop does not catch. The model assumes a 200 response carries a decoded `games` list (or none).
