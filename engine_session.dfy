/**
 * One call of `analyzePosition(fen)`: a fresh worker, a 60-second timer and
 * a promise, driven by the worker's messages.  The worker, the timer and the
 * promise are replaced by events fed in sequence: a batch of text from the
 * worker (`onmessage`), a worker error (`onerror`) and the timer firing.
 *
 * `Session` is the whole state of one request as a value and the `Handle…`
 * functions are its transitions; the class `AnalysisRequest` keeps the same
 * state in fields and updates it in place, proved against those functions.
 */
module EngineSession {
  import opened Wrappers
  import opened Text
  import opened UciCodec

  /** `{ evaluation, best_move, top_lines }`; the evaluation is `{type, value}`. */
  datatype AnalysisResult = AnalysisResult(evaluation: Score, bestMove: string, topLines: seq<InfoLine>)

  datatype Failure = WorkerError(message: string) | TimedOut

  /** The state of the promise `analyzePosition` returns. */
  datatype Outcome = Pending | Resolved(result: AnalysisResult) | Rejected(failure: Failure)

  /** A promise settles once: a later `resolve` or `reject` is ignored. */
  function Settle(o: Outcome, next: Outcome): Outcome {
    if o.Pending? then next else o
  }

  // ------------------------------------------------------------ the result

  /** The ranks among 1, 2, 3 that have a line, in ascending order. */
  function PresentRanks(table: map<nat, InfoLine>): (ranks: seq<nat>)
    ensures forall i, j :: 0 <= i < j < |ranks| ==> ranks[i] < ranks[j]
    ensures forall k :: k in ranks <==> 1 <= k <= 3 && k in table
  {
    (if 1 in table then [1] else []) + (if 2 in table then [2] else []) + (if 3 in table then [3] else [])
  }

  /** `[1, 2, 3].map(i => multipvLines[i]).filter(Boolean)`. */
  function TopLines(table: map<nat, InfoLine>): (lines: seq<InfoLine>)
    ensures |lines| == |PresentRanks(table)| <= 3
    ensures forall i :: 0 <= i < |lines| ==> lines[i] == table[PresentRanks(table)[i]]
  {
    var ranks := PresentRanks(table);
    seq(|ranks|, i requires 0 <= i < |ranks| => table[ranks[i]])
  }

  /** The object the promise resolves with when `bestmove` arrives. */
  function Assemble(table: map<nat, InfoLine>, bestMove: Option<string>): (r: AnalysisResult)
    ensures r.topLines == TopLines(table)
    ensures r.bestMove == bestMove.GetOr("")
  {
    var top := TopLines(table);
    var evaluation := if top == [] then Score(Cp, 0) else ScoreOf(top[0]);
    AnalysisResult(evaluation, bestMove.GetOr(""), top)
  }

  /** With only well-shaped lines in the table, the evaluation is the score
      of the best-ranked line present among 1..3, and a neutral `cp 0` when
      none is; `best_move` is `''` when the engine named none. */
  lemma AssembleEvaluation(table: map<nat, InfoLine>, bestMove: Option<string>)
    requires forall k | k in table :: WellShaped(table[k])
    ensures var r := Assemble(table, bestMove);
      && (r.topLines == [] <==> (1 !in table && 2 !in table && 3 !in table))
      && (r.topLines == [] ==> r.evaluation == Score(Cp, 0))
      && (1 in table ==> r.evaluation == ScoreOf(table[1]) && r.topLines[0] == table[1])
      && (1 !in table && 2 in table ==> r.evaluation == ScoreOf(table[2]))
      && (1 !in table && 2 !in table && 3 in table ==> r.evaluation == ScoreOf(table[3]))
      && (bestMove.None? ==> r.bestMove == "")
  {
    var ranks := PresentRanks(table);
    if 1 in table {
      assert ranks[0] == 1;
    } else if 2 in table {
      assert ranks[0] == 2;
    } else if 3 in table {
      assert ranks[0] == 3;
    }
  }

  // ------------------------------------------------------------ the session

  /** Everything one `analyzePosition` call keeps: the commands posted to the
      worker, `multipvLines`, `bestMove`, `resolved`, whether the timer is
      still set, whether the worker still runs, and the promise. */
  datatype Session = Session(
    fen: string,
    sent: seq<string>,
    table: map<nat, InfoLine>,
    bestMove: Option<string>,
    resolved: bool,
    timerArmed: bool,
    workerAlive: bool,
    outcome: Outcome)

  /** Right after the call: handlers installed, timer set, `uci` posted. */
  function Start(fen: string): (s: Session)
    ensures Valid(s) && s.outcome.Pending? && !s.resolved
    ensures s.fen == fen && s.sent == ["uci"] && s.table == map[] && s.bestMove.None?
  {
    Session(fen, ["uci"], map[], None, false, true, true, Pending)
  }

  /** What the request keeps true between events: the timer is set and the
      worker runs exactly while the promise is pending; `resolved` implies
      settled; every recorded line is well shaped; `uci` went out first. */
  predicate Valid(s: Session) {
    && s.timerArmed == s.outcome.Pending?
    && s.workerAlive == s.timerArmed
    && (s.resolved ==> !s.outcome.Pending?)
    && (forall k | k in s.table :: WellShaped(s.table[k]))
    && |s.sent| >= 1 && s.sent[0] == "uci"
  }

  /** Whether the loop over a batch goes on (`continue`) or stops (`break`). */
  datatype Flow = Next | Stop

  /** `raw.split('\n').map(s => s.trim()).filter(Boolean)`. */
  function Lines(raw: string): (lines: seq<string>)
    ensures forall k :: 0 <= k < |lines| ==> lines[k] != [] && IsTrimmed(lines[k])
  {
    CleanLines(Split(raw, '\n'))
  }

  function CleanLines(parts: seq<string>): (lines: seq<string>)
    ensures forall k :: 0 <= k < |lines| ==> lines[k] != [] && IsTrimmed(lines[k])
  {
    if parts == [] then []
    else
      var t := Trim(parts[0]);
      (if t == "" then [] else [t]) + CleanLines(parts[1..])
  }

  /** The text up to the first newline gives its trimmed self as the first
      line, unless it is blank, and the lines of the rest follow. */
  lemma LinesCons(a: string, b: string)
    requires '\n' !in a
    ensures Lines(a + "\n" + b) == (if Trim(a) == "" then [] else [Trim(a)]) + Lines(b)
  {
    SplitCons(a, '\n', b);
    assert a + "\n" + b == a + ['\n'] + b;
    var parts := Split(a + ['\n'] + b, '\n');
    assert parts[1..] == Split(b, '\n');
  }

  /** A text without a newline is one line, trimmed, or none when blank. */
  lemma LinesSingle(a: string)
    requires '\n' !in a
    ensures Lines(a) == (if Trim(a) == "" then [] else [Trim(a)])
  {
    SplitNoSep(a, '\n');
    assert [a][1..] == [];
    assert CleanLines([a][1..]) == [];
  }

  /** The body of the loop in `onmessage` for one line: only `uciok` and a
      `bestmove` line end the batch, only `uciok` sends commands. */
  function HandleLine(s: Session, line: string): (r: (Session, Flow))
    ensures r.1 == Stop <==> line == "uciok" || "bestmove " <= line
    ensures r.0.fen == s.fen
    ensures line != "uciok" ==> r.0.sent == s.sent
  {
    assert "info " <= line ==> line[0] == 'i';
    assert "bestmove " <= line ==> line[0] == 'b';
    if line == "uciok" then
      (s.(sent := s.sent + StartCommands(s.fen)), Stop)
    else if "info " <= line && Contains(line, " multipv ") then
      match ParseInfoLine(line, SideToMove(s.fen))
      case Some(p) => (s.(table := s.table[Rank(line) := p]), Next)
      case None => (s, Next)
    else if "bestmove " <= line then
      var s' := s.(bestMove := ParseBestMove(line), timerArmed := false, workerAlive := false);
      if s.resolved then (s', Stop)
      else (s'.(resolved := true, outcome := Settle(s.outcome, Resolved(Assemble(s.table, s'.bestMove)))), Stop)
    else
      (s, Next)
  }

  /** `onmessage` over the lines of one batch: stops at `uciok` or `bestmove`. */
  function HandleLines(s: Session, lines: seq<string>): (r: Session)
    ensures r.fen == s.fen
    ensures (forall k :: 0 <= k < |lines| ==> lines[k] != "uciok") ==> r.sent == s.sent
    decreases |lines|
  {
    if lines == [] then s
    else
      match HandleLine(s, lines[0])
      case (s', Stop) => s'
      case (s', Next) => HandleLines(s', lines[1..])
  }

  /** `onerror`: clear the timer, stop the worker, reject unless resolved. */
  function HandleError(s: Session, message: string): (r: Session)
    ensures !r.timerArmed && !r.workerAlive && r.resolved
    ensures r.table == s.table && r.sent == s.sent && r.bestMove == s.bestMove
    ensures s.resolved ==> r.outcome == s.outcome
    ensures !s.resolved && s.outcome.Pending? ==> r.outcome == Rejected(WorkerError(message))
  {
    var s' := s.(timerArmed := false, workerAlive := false);
    if s.resolved then s'
    else s'.(resolved := true, outcome := Settle(s.outcome, Rejected(WorkerError(message))))
  }

  /** The timer firing: stop the worker and reject.  A cleared timer never
      fires, so then nothing happens.  `resolved` is left as it is. */
  function HandleTimeout(s: Session): (r: Session)
    ensures !s.timerArmed ==> r == s
    ensures s.timerArmed ==> !r.timerArmed && !r.workerAlive
    ensures s.timerArmed && s.outcome.Pending? ==> r.outcome == Rejected(TimedOut)
    ensures !s.outcome.Pending? ==> r.outcome == s.outcome
    ensures r.resolved == s.resolved && r.table == s.table
  {
    if !s.timerArmed then s
    else s.(timerArmed := false, workerAlive := false, outcome := Settle(s.outcome, Rejected(TimedOut)))
  }

  // ------------------------------------------------------------ properties

  lemma StartValid(fen: string)
    ensures Valid(Start(fen)) && Start(fen).outcome.Pending?
  {
  }

  lemma HandleLineValid(s: Session, line: string)
    requires Valid(s)
    ensures Valid(HandleLine(s, line).0)
  {
    if "info " <= line && Contains(line, " multipv ") && line != "uciok" {
      var p := ParseInfoLine(line, SideToMove(s.fen));
      if p.Some? {
        assert WellShaped(p.value);
      }
    }
  }

  /** Every batch of worker output keeps the request's invariant. */
  lemma {:induction false} HandleLinesValid(s: Session, lines: seq<string>)
    requires Valid(s)
    ensures Valid(HandleLines(s, lines))
    decreases |lines|
  {
    if lines != [] {
      HandleLineValid(s, lines[0]);
      var (s', flow) := HandleLine(s, lines[0]);
      if flow == Next {
        HandleLinesValid(s', lines[1..]);
      }
    }
  }

  lemma ErrorAndTimeoutValid(s: Session, message: string)
    requires Valid(s)
    ensures Valid(HandleError(s, message)) && Valid(HandleTimeout(s))
  {
  }

  /** A batch of output never changes a settled promise. */
  lemma {:induction false} SettledStaysSettled(s: Session, lines: seq<string>)
    requires !s.outcome.Pending?
    ensures HandleLines(s, lines).outcome == s.outcome
    decreases |lines|
  {
    if lines != [] {
      var (s', flow) := HandleLine(s, lines[0]);
      assert s'.outcome == s.outcome;
      if flow == Next {
        SettledStaysSettled(s', lines[1..]);
      }
    }
  }

  /** The two facts every batch keeps, together. */
  lemma BatchKeeps(s: Session, lines: seq<string>)
    ensures Valid(s) ==> Valid(HandleLines(s, lines))
    ensures !s.outcome.Pending? ==> HandleLines(s, lines).outcome == s.outcome
  {
    if Valid(s) {
      HandleLinesValid(s, lines);
    }
    if !s.outcome.Pending? {
      SettledStaysSettled(s, lines);
    }
  }

  /** Neither an error nor the timer changes a settled promise, and an error
      after resolution does not reject. */
  lemma SettledIgnoresErrorAndTimeout(s: Session, message: string)
    requires !s.outcome.Pending?
    ensures HandleError(s, message).outcome == s.outcome
    ensures HandleTimeout(s).outcome == s.outcome
  {
  }

  /** While the promise is pending the timer is set, so the timeout always
      settles it: a request never hangs forever. */
  lemma PendingTimesOut(s: Session)
    requires Valid(s) && s.outcome.Pending?
    ensures HandleTimeout(s).outcome == Rejected(TimedOut)
    ensures !HandleTimeout(s).workerAlive
  {
  }

  /** `uciok` makes the client post `ucinewgame`, the position, the line
      count and the search, in that order, and ends the batch: the lines
      after it in the same batch are not looked at. */
  lemma UciOkStartsSearch(s: Session, rest: seq<string>)
    ensures var s' := HandleLines(s, ["uciok"] + rest);
      && s'.sent == s.sent + ["ucinewgame", "position fen " + s.fen,
                              "setoption name MultiPV value 3", "go depth 18"]
      && s' == s.(sent := s'.sent)
  {
  }

  /** The first `bestmove` of a pending request resolves it with the table
      as it stands; the lines after it in the batch are not looked at. */
  lemma BestMoveResolves(s: Session, line: string, rest: seq<string>)
    requires Valid(s) && s.outcome.Pending?
    requires "bestmove " <= line && line != "uciok"
    ensures var s' := HandleLines(s, [line] + rest);
      && s'.outcome == Resolved(Assemble(s.table, ParseBestMove(line)))
      && s'.resolved && !s'.timerArmed && !s'.workerAlive
      && s'.table == s.table && s'.sent == s.sent && s'.fen == s.fen
      && s'.bestMove == ParseBestMove(line)
  {
    assert !("info " <= line) by {
      assert line[0] == 'b';
    }
  }

  /** A `bestmove` line after the request was settled by an error still
      records the move, clears the timer and stops the worker, but changes
      neither the outcome nor the table; it ends the batch. */
  lemma BestMoveAfterResolved(s: Session, line: string)
    requires s.resolved && "bestmove " <= line
    ensures HandleLine(s, line)
         == (s.(bestMove := ParseBestMove(line), timerArmed := false, workerAlive := false), Stop)
  {
    assert line != "uciok" && !("info " <= line) by { assert line[0] == 'b'; }
  }

  /** Every other line is dropped: `id …`, `option …`, `readyok`,
      `info string …`, an `info` line without ` multipv `, and a multipv
      line without a score leave the session as it was, and the loop goes on. */
  lemma IgnoredLine(s: Session, line: string)
    requires line != "uciok" && !("bestmove " <= line)
    requires !("info " <= line && Contains(line, " multipv ") && HasScore(line))
    ensures HandleLine(s, line) == (s, Next)
  {
  }

  /** An `info` line with ` multipv ` and a score is stored under its rank
      and the loop goes on to the next line. */
  lemma InfoLineRecorded(s: Session, line: string)
    requires "info " <= line && Contains(line, " multipv ") && HasScore(line)
    ensures HandleLine(s, line)
         == (s.(table := s.table[Rank(line) := ParseInfoLine(line, SideToMove(s.fen)).value]), Next)
  {
    assert line != "uciok" by { assert line[0] == 'i'; }
  }

  /** A line that lets the loop go on hands the rest of the batch to the
      state it leaves; a line that stops it ends the batch. */
  lemma HandleLinesStep(s: Session, line: string, rest: seq<string>)
    ensures HandleLine(s, line).1 == Next
        ==> HandleLines(s, [line] + rest) == HandleLines(HandleLine(s, line).0, rest)
    ensures HandleLine(s, line).1 == Stop
        ==> HandleLines(s, [line] + rest) == HandleLine(s, line).0
  {
    assert ([line] + rest)[0] == line;
    assert ([line] + rest)[1..] == rest;
  }

  /** A later line for the same rank replaces the earlier one; the other
      ranks keep theirs. */
  lemma LaterLineOverwrites(s: Session, l1: string, l2: string)
    requires "info " <= l1 && Contains(l1, " multipv ") && HasScore(l1)
    requires "info " <= l2 && Contains(l2, " multipv ") && HasScore(l2)
    requires Rank(l1) == Rank(l2)
    ensures HandleLines(s, [l1, l2]).table
         == s.table[Rank(l2) := ParseInfoLine(l2, SideToMove(s.fen)).value]
  {
    InfoLineRecorded(s, l1);
    var s1 := HandleLine(s, l1).0;
    InfoLineRecorded(s1, l2);
    var s2 := HandleLine(s1, l2).0;
    HandleLinesStep(s, l1, [l2]);
    HandleLinesStep(s1, l2, []);
    assert [l1] + [l2] == [l1, l2];
    assert HandleLines(s2, []) == s2;
  }

  // ------------------------------------------------------------ in place

  /** The request as the closure in `analyzePosition` keeps it. */
  class AnalysisRequest {
    const fen: string
    var sent: seq<string>
    var table: map<nat, InfoLine>
    var bestMove: Option<string>
    var resolved: bool
    var timerArmed: bool
    var workerAlive: bool
    var outcome: Outcome

    function State(): Session
      reads this
    {
      Session(fen, sent, table, bestMove, resolved, timerArmed, workerAlive, outcome)
    }

    /** `analyzePosition(fen)` up to `worker.postMessage('uci')`. */
    constructor (fen: string)
      ensures State() == Start(fen) && Valid(State())
    {
      this.fen := fen;
      sent := ["uci"];
      table := map[];
      bestMove := None;
      resolved := false;
      timerArmed := true;
      workerAlive := true;
      outcome := Pending;
    }

    /** `worker.onmessage` for one batch of text: split it into lines, then
        run the loop over them. */
    method OnMessage(raw: string)
      modifies this
      ensures State() == HandleLines(old(State()), Lines(raw))
      ensures Valid(old(State())) ==> Valid(State())
      ensures !old(outcome).Pending? ==> outcome == old(outcome)
    {
      HandleBatch(Lines(raw));
    }

    /** The `for (const line of lines)` loop of `onmessage`. */
    method HandleBatch(lines: seq<string>)
      modifies this
      ensures State() == HandleLines(old(State()), lines)
      ensures Valid(old(State())) ==> Valid(State())
      ensures !old(outcome).Pending? ==> outcome == old(outcome)
    {
      var i := 0;
      while i < |lines|
        invariant 0 <= i <= |lines|
        invariant HandleLines(old(State()), lines) == HandleLines(State(), lines[i..])
      {
        assert lines[i..] == [lines[i]] + lines[i + 1..];
        HandleLinesStep(State(), lines[i], lines[i + 1..]);
        var flow := HandleOne(lines[i]);
        if flow == Stop {
          break;
        }
        i := i + 1;
      }
      BatchKeeps(old(State()), lines);
    }

    /** The body of that loop for one line; `Stop` is its `break`. */
    method HandleOne(line: string) returns (flow: Flow)
      modifies this
      ensures (State(), flow) == HandleLine(old(State()), line)
    {
      assert "info " <= line ==> line[0] == 'i';
      assert "bestmove " <= line ==> line[0] == 'b';
      if line == "uciok" {
        sent := sent + StartCommands(fen);
        return Stop;
      }
      if "info " <= line && Contains(line, " multipv ") {
        var parsed := ParseInfoLine(line, SideToMove(fen));
        if parsed.Some? {
          table := table[Rank(line) := parsed.value];
        }
        return Next;
      }
      if "bestmove " <= line {
        bestMove := ParseBestMove(line);
        timerArmed := false;
        workerAlive := false;
        if resolved {
          return Stop;
        }
        resolved := true;
        outcome := Settle(outcome, Resolved(Assemble(table, bestMove)));
        return Stop;
      }
      return Next;
    }

    /** `worker.onerror`. */
    method OnError(message: string)
      modifies this
      ensures State() == HandleError(old(State()), message)
      ensures old(resolved) ==> outcome == old(outcome)
    {
      timerArmed := false;
      workerAlive := false;
      if !resolved {
        resolved := true;
        outcome := Settle(outcome, Rejected(WorkerError(message)));
      }
    }

    /** The 60-second timer firing (it cannot fire once cleared). */
    method OnTimeout()
      modifies this
      ensures State() == HandleTimeout(old(State()))
      ensures Valid(old(State())) && old(outcome).Pending? ==> outcome == Rejected(TimedOut)
    {
      if timerArmed {
        timerArmed := false;
        workerAlive := false;
        outcome := Settle(outcome, Rejected(TimedOut));
      }
    }
  }
}
