/**
 * The analysis board: a game's move list is replayed from the initial
 * position to show the position after any move, the user may try moves of
 * their own on the board, the move list is shown in numbered rows, and the
 * engine's evaluation drives a bar.
 *
 * The chess rules are a parameter: `Rules` holds the initial position, the
 * move function (`None` when the move is illegal), the FEN of a position,
 * and the move a drag from one square to another stands for (always
 * promoting to a queen).
 */
module GameReplay {
  import opened Wrappers
  import opened UciCodec
  import opened GameList

  datatype Rules<!P, !M> = Rules(
    initial: P,
    apply: (P, M) -> Option<P>,
    fen: P -> string,
    drop: (string, string) -> M)

  /** The position after the first `k` moves from a fresh board, or `None`
      when one of them is refused. */
  function PositionAfter<P, M>(r: Rules<P, M>, moves: seq<M>, k: nat): Option<P>
    requires k <= |moves|
  {
    if k == 0 then Some(r.initial)
    else match PositionAfter(r, moves, k - 1)
      case None => None
      case Some(p) => r.apply(p, moves[k - 1])
  }

  /** Once a move is refused, no longer prefix is playable either. */
  lemma {:induction false} RefusedStaysRefused<P, M>(r: Rules<P, M>, moves: seq<M>, j: nat, k: nat)
    requires j <= k <= |moves|
    requires PositionAfter(r, moves, j).None?
    ensures PositionAfter(r, moves, k).None?
    decreases k - j
  {
    if j < k {
      RefusedStaysRefused(r, moves, j, k - 1);
    }
  }

  /** Every prefix of a playable move list is playable. */
  lemma PrefixPlayable<P, M>(r: Rules<P, M>, moves: seq<M>, k: nat)
    requires k <= |moves|
    requires PositionAfter(r, moves, |moves|).Some?
    ensures PositionAfter(r, moves, k).Some?
  {
    if PositionAfter(r, moves, k).None? {
      RefusedStaysRefused(r, moves, k, |moves|);
    }
  }

  /** A move list the rules accept from start to end.  A PGN that starts
      from a set-up position loads but need not replay from the initial
      position, so this is a hypothesis of the lemmas, not of the page. */
  predicate Playable<P, M>(r: Rules<P, M>, moves: seq<M>) {
    PositionAfter(r, moves, |moves|).Some?
  }

  // ------------------------------------------------------------ the view

  /** What the board shows: the keyword `start` or a FEN. */
  datatype Shown = StartPosition | Fen(fen: string)

  /** The navigation state: `currentMoveIndex`, `gamePosition` and `chess`. */
  datatype View<P> = View(cursor: int, shown: Shown, board: P)

  /** The cursor is `-1` (before the first move) or the index of a move. */
  predicate CursorInRange<P, M>(moves: seq<M>, v: View<P>) {
    -1 <= v.cursor < |moves|
  }

  /** The view right after a PGN is loaded. */
  function Fresh<P, M>(r: Rules<P, M>): View<P> {
    View(-1, StartPosition, r.initial)
  }

  /** `goToMove(index)`: out of range, nothing changes; otherwise the board
      is rebuilt by replaying moves `0..index` on a fresh board.  A refused
      move would throw before any state is set. */
  function GoTo<P, M>(r: Rules<P, M>, moves: seq<M>, v: View<P>, index: int): (w: View<P>)
    ensures CursorInRange(moves, v) ==> CursorInRange(moves, w)
    ensures w == v || (-1 <= index < |moves| && w.cursor == index && Some(w.board) == PositionAfter(r, moves, index + 1)
      && w.shown == (if index == -1 then StartPosition else Fen(r.fen(w.board))))
  {
    if index < -1 || index >= |moves| then v
    else match PositionAfter(r, moves, index + 1)
      case None => v
      case Some(p) => View(index, if index == -1 then StartPosition else Fen(r.fen(p)), p)
  }

  /** `goToStart` */
  function ToStart<P, M>(r: Rules<P, M>, v: View<P>): (w: View<P>)
    ensures w == Fresh(r)
  {
    View(-1, StartPosition, r.initial)
  }

  /** `goToEnd` */
  function ToEnd<P, M>(r: Rules<P, M>, moves: seq<M>, v: View<P>): (w: View<P>)
    ensures CursorInRange(moves, v) ==> CursorInRange(moves, w)
    ensures |moves| == 0 ==> w == v
    ensures Playable(r, moves) && |moves| > 0 ==>
      w.cursor == |moves| - 1 && Some(w.board) == PositionAfter(r, moves, |moves|)
  {
    if |moves| > 0 then GoTo(r, moves, v, |moves| - 1) else v
  }

  /** `goToPrevious` */
  function ToPrevious<P, M>(r: Rules<P, M>, moves: seq<M>, v: View<P>): (w: View<P>)
    ensures CursorInRange(moves, v) ==> CursorInRange(moves, w)
    ensures v.cursor == -1 ==> w == v
  {
    GoTo(r, moves, v, v.cursor - 1)
  }

  /** `goToNext` */
  function ToNext<P, M>(r: Rules<P, M>, moves: seq<M>, v: View<P>): (w: View<P>)
    ensures CursorInRange(moves, v) ==> CursorInRange(moves, w)
    ensures v.cursor >= |moves| - 1 ==> w == v
  {
    if v.cursor < |moves| - 1 then GoTo(r, moves, v, v.cursor + 1) else v
  }

  /** `onDrop(from, to)`: a refused move changes nothing and answers false;
      an accepted one is played on the current board, shown, and answers
      true.  The cursor never moves. */
  function Drop<P, M>(r: Rules<P, M>, v: View<P>, from: string, to: string): (res: (View<P>, bool))
    ensures res.0.cursor == v.cursor
    ensures res.1 <==> r.apply(v.board, r.drop(from, to)).Some?
    ensures !res.1 ==> res.0 == v
    ensures res.1 ==> Some(res.0.board) == r.apply(v.board, r.drop(from, to)) && res.0.shown == Fen(r.fen(res.0.board))
  {
    match r.apply(v.board, r.drop(from, to))
    case None => (v, false)
    case Some(p) => (v.(shown := Fen(r.fen(p)), board := p), true)
  }

  // ---------------------------------------------------------- properties

  /** In range, on a playable list, `goToMove(i)` puts the cursor on `i` and
      shows the position after moves `0..i`; `-1` shows `start`. */
  lemma GoToInRange<P, M>(r: Rules<P, M>, moves: seq<M>, v: View<P>, i: int)
    requires Playable(r, moves) && -1 <= i < |moves|
    ensures var w := GoTo(r, moves, v, i);
      && w.cursor == i
      && Some(w.board) == PositionAfter(r, moves, i + 1)
      && w.shown == (if i == -1 then StartPosition else Fen(r.fen(w.board)))
      && CursorInRange(moves, w)
  {
    PrefixPlayable(r, moves, i + 1);
  }

  /** Out of range, `goToMove` changes nothing. */
  lemma GoToOutOfRange<P, M>(r: Rules<P, M>, moves: seq<M>, v: View<P>, i: int)
    requires i < -1 || i >= |moves|
    ensures GoTo(r, moves, v, i) == v
  {
  }

  /** A move list that the rules refuse before move `i` (a game set up
      from another position) leaves the view as it was: the library throws
      before any state is set. */
  lemma GoToRefused<P, M>(r: Rules<P, M>, moves: seq<M>, v: View<P>, i: int)
    requires -1 <= i < |moves| && PositionAfter(r, moves, i + 1).None?
    ensures GoTo(r, moves, v, i) == v
  {
  }

  /** The replay starts from a fresh board every time: the result does not
      depend on what was shown before, so going to the same move twice is
      the same as going there once, and moves tried on the board are lost. */
  lemma GoToForgetsView<P, M>(r: Rules<P, M>, moves: seq<M>, v1: View<P>, v2: View<P>, i: int)
    requires Playable(r, moves) && -1 <= i < |moves|
    ensures GoTo(r, moves, v1, i) == GoTo(r, moves, v2, i)
    ensures GoTo(r, moves, GoTo(r, moves, v1, i), i) == GoTo(r, moves, v1, i)
  {
    PrefixPlayable(r, moves, i + 1);
  }

  /** `goToStart` is `goToMove(-1)`. */
  lemma StartIsMoveMinusOne<P, M>(r: Rules<P, M>, moves: seq<M>, v: View<P>)
    ensures ToStart(r, v) == GoTo(r, moves, v, -1)
  {
  }

  /** `goToEnd` shows the final position of the game, the one the engine
      analyses; on an empty list it does nothing. */
  lemma EndShowsFinalPosition<P, M>(r: Rules<P, M>, moves: seq<M>, v: View<P>)
    requires Playable(r, moves)
    ensures |moves| == 0 ==> ToEnd(r, moves, v) == v
    ensures |moves| > 0 ==> var w := ToEnd(r, moves, v);
      && w.cursor == |moves| - 1
      && Some(w.board) == PositionAfter(r, moves, |moves|)
      && w.shown == Fen(r.fen(w.board))
  {
  }

  /** From a cursor in range, `goToNext` steps one move forward unless on
      the last move, and `goToPrevious` one back unless at `-1`, where the
      range guard makes it a no-op. */
  lemma StepsMoveByOne<P, M>(r: Rules<P, M>, moves: seq<M>, v: View<P>)
    requires Playable(r, moves) && CursorInRange(moves, v)
    ensures v.cursor < |moves| - 1 ==> ToNext(r, moves, v).cursor == v.cursor + 1
    ensures v.cursor == |moves| - 1 ==> ToNext(r, moves, v) == v
    ensures v.cursor > -1 ==> ToPrevious(r, moves, v).cursor == v.cursor - 1
    ensures v.cursor == -1 ==> ToPrevious(r, moves, v) == v
  {
    if v.cursor < |moves| - 1 {
      GoToInRange(r, moves, v, v.cursor + 1);
    }
    if v.cursor > -1 {
      GoToInRange(r, moves, v, v.cursor - 1);
    }
  }

  /** Next then Previous comes back to the replayed position of the cursor. */
  lemma NextThenPrevious<P, M>(r: Rules<P, M>, moves: seq<M>, v: View<P>)
    requires Playable(r, moves) && CursorInRange(moves, v) && v.cursor < |moves| - 1
    ensures ToPrevious(r, moves, ToNext(r, moves, v)) == GoTo(r, moves, v, v.cursor)
  {
    var w := ToNext(r, moves, v);
    GoToInRange(r, moves, v, v.cursor + 1);
    GoToForgetsView(r, moves, w, v, v.cursor);
  }

  /** Navigating after trying moves forgets them: the view is the one the
      navigation gives without them. */
  lemma NavigationDiscardsTriedMoves<P, M>(r: Rules<P, M>, moves: seq<M>, v: View<P>, from: string, to: string, i: int)
    requires Playable(r, moves) && -1 <= i < |moves|
    ensures GoTo(r, moves, Drop(r, v, from, to).0, i) == GoTo(r, moves, v, i)
  {
    GoToForgetsView(r, moves, Drop(r, v, from, to).0, v, i);
  }

  // ------------------------------------------------------------ in place

  /** The board page's navigation state, updated by its handlers. */
  class AnalyzeGame<P, M> {
    const rules: Rules<P, M>
    var moves: seq<M>
    var cursor: int
    var shown: Shown
    var board: P

    function State(): View<P>
      reads this
    {
      View(cursor, shown, board)
    }

    /** The cursor is `-1` or on a move. */
    predicate Valid()
      reads this
    {
      CursorInRange(moves, State())
    }

    /** The page before a game is loaded: no moves, the initial position. */
    constructor (rules: Rules<P, M>)
      ensures Valid() && moves == [] && State() == Fresh(rules)
    {
      this.rules := rules;
      moves := [];
      cursor := -1;
      shown := StartPosition;
      board := rules.initial;
    }

    /** `loadGameFromPgn`: the moves of the PGN, cursor `-1`, `start`, and a
        fresh board. */
    method Load(history: seq<M>)
      modifies this
      ensures Valid() && moves == history && State() == Fresh(rules)
    {
      moves := history;
      cursor := -1;
      shown := StartPosition;
      board := rules.initial;
    }

    /** `goToMove(index)` */
    method GoToMove(index: int)
      modifies this
      requires Valid()
      ensures Valid() && moves == old(moves)
      ensures State() == GoTo(rules, moves, old(State()), index)
    {
      if index < -1 || index >= |moves| {
        return;
      }
      var temp := rules.initial;
      var i := 0;
      while i <= index
        invariant 0 <= i <= index + 1
        invariant PositionAfter(rules, moves, i) == Some(temp)
      {
        match rules.apply(temp, moves[i])
        case None =>
          RefusedStaysRefused(rules, moves, i + 1, index + 1);
          return;
        case Some(p) =>
          temp := p;
        i := i + 1;
      }
      cursor := index;
      shown := if index == -1 then StartPosition else Fen(rules.fen(temp));
      board := temp;
    }

    /** `goToStart` */
    method GoToStart()
      modifies this
      requires Valid()
      ensures Valid() && moves == old(moves)
      ensures State() == ToStart(rules, old(State()))
    {
      cursor := -1;
      shown := StartPosition;
      board := rules.initial;
    }

    /** `goToEnd` */
    method GoToEnd()
      modifies this
      requires Valid()
      ensures Valid() && moves == old(moves)
      ensures State() == ToEnd(rules, moves, old(State()))
    {
      if |moves| > 0 {
        GoToMove(|moves| - 1);
      }
    }

    /** `goToPrevious` */
    method GoToPrevious()
      modifies this
      requires Valid()
      ensures Valid() && moves == old(moves)
      ensures State() == ToPrevious(rules, moves, old(State()))
    {
      GoToMove(cursor - 1);
    }

    /** `goToNext` */
    method GoToNext()
      modifies this
      requires Valid()
      ensures Valid() && moves == old(moves)
      ensures State() == ToNext(rules, moves, old(State()))
    {
      if cursor < |moves| - 1 {
        GoToMove(cursor + 1);
      }
    }

    /** `onDrop(from, to)`: plays the move on the board in place. */
    method OnDrop(from: string, to: string) returns (accepted: bool)
      modifies this
      requires Valid()
      ensures Valid() && moves == old(moves)
      ensures (State(), accepted) == Drop(rules, old(State()), from, to)
    {
      match rules.apply(board, rules.drop(from, to))
      case None =>
        return false;
      case Some(p) =>
        board := p;
        shown := Fen(rules.fen(p));
        return true;
    }
  }

  // ----------------------------------------------------------- move rows

  /** One row of the move list. */
  datatype MovePair<M> = MovePair(moveNumber: nat, white: M, whiteIndex: nat, black: Option<M>, blackIndex: nat)

  /** The plies a row holds, White's first. */
  function RowPlies<M>(p: MovePair<M>): seq<M> {
    [p.white] + (if p.black.Some? then [p.black.value] else [])
  }

  /** The plies of all rows in order. */
  function Unpair<M>(pairs: seq<MovePair<M>>): seq<M> {
    if pairs == [] then [] else Unpair(pairs[..|pairs| - 1]) + RowPlies(pairs[|pairs| - 1])
  }

  /** Appending a row appends its plies. */
  lemma UnpairSnoc<M>(pairs: seq<MovePair<M>>, row: MovePair<M>)
    ensures Unpair(pairs + [row]) == Unpair(pairs) + RowPlies(row)
  {
    assert (pairs + [row])[..|pairs|] == pairs;
  }

  /** Row `k` of the move list as `movePairs` builds it. */
  ghost predicate IsRow<M>(moves: seq<M>, k: nat, p: MovePair<M>) {
    && p.moveNumber == k + 1
    && p.whiteIndex == 2 * k && 2 * k < |moves| && p.white == moves[2 * k]
    && p.blackIndex == 2 * k + 1
    && (p.black.None? <==> 2 * k + 1 == |moves|)
    && (p.black.Some? ==> 2 * k + 1 < |moves| && p.black.value == moves[2 * k + 1])
  }

  /** `movePairs`: rows of two plies numbered from 1; the last row has no
      Black move when the number of plies is odd. */
  method MovePairs<M>(moves: seq<M>) returns (pairs: seq<MovePair<M>>)
    ensures |pairs| == (|moves| + 1) / 2
    ensures forall k :: 0 <= k < |pairs| ==> IsRow(moves, k, pairs[k])
    ensures Unpair(pairs) == moves
  {
    pairs := [];
    var i := 0;
    while i < |moves|
      invariant i == 2 * |pairs|
      invariant i <= |moves| || i == |moves| + 1
      invariant forall k :: 0 <= k < |pairs| ==> IsRow(moves, k, pairs[k])
      invariant Unpair(pairs) == moves[..if i <= |moves| then i else |moves|]
    {
      var black := if i + 1 < |moves| then Some(moves[i + 1]) else None;
      var row := MovePair(i / 2 + 1, moves[i], i, black, i + 1);
      assert IsRow(moves, |pairs|, row);
      UnpairSnoc(pairs, row);
      var next := if i + 1 < |moves| then i + 2 else i + 1;
      assert moves[..next] == moves[..i] + RowPlies(row);
      pairs := pairs + [row];
      i := i + 2;
    }
  }

  // ------------------------------------------------------------ eval bar

  /** `Math.max(-5, Math.min(5, x))` */
  function Clamp(x: real): (c: real)
    ensures -5.0 <= c <= 5.0
    ensures -5.0 <= x <= 5.0 ==> c == x
    ensures x > 5.0 ==> c == 5.0
    ensures x < -5.0 ==> c == -5.0
  {
    if x > 5.0 then 5.0 else if x < -5.0 then -5.0 else x
  }

  /** `evalBarHeight`: the share of the bar that is White's, in percent.
      A centipawn score counts in pawns, a mate as ten pawns for the side
      that mates, clamped to five pawns either way. */
  function EvalBarHeight(eval: Option<Score>): (h: real)
    ensures eval.None? ==> h == 50.0
    ensures 0.0 <= h <= 100.0
    ensures eval.Some? && eval.value.kind == Mate ==> h == if eval.value.value > 0 then 100.0 else 0.0
    ensures eval.Some? && eval.value.kind == Cp && eval.value.value >= 500 ==> h == 100.0
    ensures eval.Some? && eval.value.kind == Cp && eval.value.value <= -500 ==> h == 0.0
    ensures eval.Some? && eval.value.kind == Cp && -500 <= eval.value.value <= 500 ==>
      h == 50.0 + eval.value.value as real / 10.0
  {
    match eval
    case None => 50.0
    case Some(sc) =>
      var pawns := if sc.kind == Cp then sc.value as real / 100.0
                   else if sc.value > 0 then 10.0 else -10.0;
      50.0 + Clamp(pawns) * 10.0
  }

  /** A better score for White never lowers White's share of the bar. */
  lemma EvalBarMonotone(a: int, b: int)
    requires a <= b
    ensures EvalBarHeight(Some(Score(Cp, a))) <= EvalBarHeight(Some(Score(Cp, b)))
  {
  }

  /** Seen from the other side, the bar is mirrored; a mate score of 0 is the
      one exception, counted as Black mating. */
  lemma EvalBarMirror(sc: Score)
    requires sc.kind == Cp || sc.value != 0
    ensures EvalBarHeight(Some(Score(sc.kind, -sc.value))) == 100.0 - EvalBarHeight(Some(sc))
  {
  }

  // -------------------------------------------------------------- result

  /** The players of the loaded game (`gameInfo`), if any. */
  datatype GameInfo = GameInfo(white: Option<Player>, black: Option<Player>)

  /** `getResultText`: `1-0` when White won, `0-1` when Black won, a draw
      otherwise, and nothing before the game is loaded. */
  function ResultText(info: Option<GameInfo>): (t: string)
    ensures t == "" <==> info.None?
    ensures t == "1-0" <==> info.Some? && ResultOf(info.value.white) == Some("win")
    ensures t == "0-1" <==> info.Some? && ResultOf(info.value.white) != Some("win")
                                       && ResultOf(info.value.black) == Some("win")
    ensures t in {"", "1-0", "0-1", "½-½"}
  {
    if info.None? then ""
    else if ResultOf(info.value.white) == Some("win") then "1-0"
    else if ResultOf(info.value.black) == Some("win") then "0-1"
    else "½-½"
  }
}
