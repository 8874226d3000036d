/**
 * The helpers of the game list: which side the user played, the result and
 * the opponent from the user's point of view, the speed class of a time
 * control, and the ten-per-page pagination with its clamped buttons.
 */
module GameList {
  import opened Wrappers
  import opened Text

  /** One side of a Chess.com game; each field may be missing. */
  datatype Player = Player(username: Option<string>, result: Option<string>)

  /** The fields of a Chess.com game the list reads. */
  datatype Game = Game(white: Option<Player>, black: Option<Player>, timeControl: Option<string>)

  /** `side?.username` */
  function Username(side: Option<Player>): Option<string> {
    if side.Some? then side.value.username else None
  }

  /** `side?.result` */
  function ResultOf(side: Option<Player>): Option<string> {
    if side.Some? then side.value.result else None
  }

  /** `s?.toLowerCase()`: `undefined` stays `undefined`. */
  function LowerOpt(s: Option<string>): (r: Option<string>)
    ensures r.Some? <==> s.Some?
    ensures r.Some? ==> r.value == Lower(s.value)
  {
    if s.Some? then Some(Lower(s.value)) else None
  }

  /** The user played White when White's username equals the user's, case
      ignored; two missing names also compare equal (`undefined === undefined`). */
  predicate IsUserWhite(g: Game, user: Option<string>): (b: bool)
    ensures user.None? ==> (b <==> Username(g.white).None?)
    ensures b && user.Some? ==> Username(g.white).Some? && Lower(Username(g.white).value) == Lower(user.value)
    ensures user.Some? && Username(g.white) == user ==> b
  {
    LowerOpt(Username(g.white)) == LowerOpt(user)
  }

  /** The same game with the colours exchanged. */
  function Swap(g: Game): Game {
    g.(white := g.black, black := g.white)
  }

  /** The user matches exactly one of the two players. */
  predicate PlaysOneSide(g: Game, user: Option<string>) {
    (LowerOpt(Username(g.white)) == LowerOpt(user)) != (LowerOpt(Username(g.black)) == LowerOpt(user))
  }

  // --------------------------------------------------------------- result

  datatype Verdict = Won | Lost | Draw

  /** The result strings Chess.com gives the losing side that count as a loss. */
  const LossResults: set<string> := {"checkmated", "resigned", "timeout", "abandoned"}

  /** The text and style class the list shows for a verdict. */
  function VerdictText(v: Verdict): (r: (string, string))
    ensures (r.0 == "Won") == (v == Won) && (r.0 == "Lost") == (v == Lost) && (r.0 == "Draw") == (v == Draw)
    ensures r.1 == "result-" + (if v == Won then "win" else if v == Lost then "loss" else "draw")
  {
    match v
    case Won => ("Won", "result-win")
    case Lost => ("Lost", "result-loss")
    case Draw => ("Draw", "result-draw")
  }

  /** `getGameResult`: the user's own result decides; `win` is a win, the
      four loss strings are a loss, anything else (or nothing) a draw. */
  function GameResult(g: Game, user: Option<string>): (v: Verdict)
    ensures var res := ResultOf(if IsUserWhite(g, user) then g.white else g.black);
      && (v == Won <==> res == Some("win"))
      && (v == Lost <==> res.Some? && res.value in LossResults)
      && (v == Draw <==> res.None? || (res.value != "win" && res.value !in LossResults))
  {
    var res := ResultOf(if IsUserWhite(g, user) then g.white else g.black);
    if res == Some("win") then Won
    else if res.Some? && res.value in LossResults then Lost
    else Draw
  }

  /** What `getGameResult` returns: the text and the style class of the
      user's own result. */
  function ResultBadge(g: Game, user: Option<string>): (b: (string, string))
    ensures var res := ResultOf(if IsUserWhite(g, user) then g.white else g.black);
      && (b == ("Won", "result-win") <==> res == Some("win"))
      && (b == ("Lost", "result-loss") <==> res.Some? && res.value in LossResults)
      && (b == ("Draw", "result-draw") <==> res.None? || (res.value != "win" && res.value !in LossResults))
  {
    VerdictText(GameResult(g, user))
  }

  /** `getOpponent`: the side the user did not play. */
  function Opponent(g: Game, user: Option<string>): (o: Option<Player>)
    ensures IsUserWhite(g, user) ==> o == g.black
    ensures !IsUserWhite(g, user) ==> o == g.white
  {
    if IsUserWhite(g, user) then g.black else g.white
  }

  /** The side is found by case-insensitive comparison: two spellings of
      the same name see the same side, result and opponent. */
  lemma CaseInsensitiveSide(g: Game, u1: string, u2: string)
    requires Lower(u1) == Lower(u2)
    ensures IsUserWhite(g, Some(u1)) == IsUserWhite(g, Some(u2))
    ensures GameResult(g, Some(u1)) == GameResult(g, Some(u2))
    ensures Opponent(g, Some(u1)) == Opponent(g, Some(u2))
  {
    assert LowerOpt(Some(u1)) == LowerOpt(Some(u2));
  }

  /** When the user is exactly one of the players, the colour they had does
      not matter: exchanging the colours keeps the verdict and the opponent. */
  lemma ColourBlind(g: Game, user: Option<string>)
    requires PlaysOneSide(g, user)
    ensures Opponent(Swap(g), user) == Opponent(g, user)
    ensures GameResult(Swap(g), user) == GameResult(g, user)
  {
  }

  // --------------------------------------------------------- time control

  datatype Speed = Unknown | Bullet | Blitz | Rapid | Classical

  /** The speed class of a base time in seconds; `NaN` (`None`) fails every
      comparison and lands in Classical. */
  function Classify(base: Option<int>): (sp: Speed)
    ensures sp != Unknown
    ensures sp == Bullet <==> base.Some? && base.value < 180
    ensures sp == Blitz <==> base.Some? && 180 <= base.value < 600
    ensures sp == Rapid <==> base.Some? && 600 <= base.value < 1800
    ensures sp == Classical <==> base.None? || 1800 <= base.value
  {
    if base.None? then Classical
    else if base.value < 180 then Bullet
    else if base.value < 600 then Blitz
    else if base.value < 1800 then Rapid
    else Classical
  }

  /** `getTimeControl`: `Unknown` without a time control; otherwise the
      class of `parseInt` of the text before the first `+`. */
  function TimeControl(g: Game): (sp: Speed)
    ensures sp == Unknown <==> g.timeControl.None? || g.timeControl.value == ""
  {
    match g.timeControl
    case None => Unknown
    case Some(tc) => if tc == "" then Unknown else Classify(ParseInt(Split(tc, '+')[0]))
  }

  /** A time control `base+increment` or a bare `base` is classed by
      `parseInt` of the base alone; the increment never matters. */
  lemma BaseDecides(g: Game, base: string, inc: string)
    requires base != [] && '+' !in base
    requires g.timeControl == Some(base + "+" + inc) || g.timeControl == Some(base)
    ensures TimeControl(g) == Classify(ParseInt(base))
  {
    if g.timeControl == Some(base + "+" + inc) {
      assert base + "+" + inc == base + ['+'] + inc;
      SplitFirst(base, '+', inc);
    } else {
      SplitNoSep(base, '+');
    }
  }

  /** A decimal base is classed against the thresholds 180, 600 and 1800
      seconds, whatever the increment. */
  lemma IncrementIgnored(g: Game, base: string, inc: string)
    requires base != [] && AllDigits(base)
    requires g.timeControl == Some(base + "+" + inc) || g.timeControl == Some(base)
    ensures var b := Decimal(base);
      && (TimeControl(g) == Bullet <==> b < 180)
      && (TimeControl(g) == Blitz <==> 180 <= b < 600)
      && (TimeControl(g) == Rapid <==> 600 <= b < 1800)
      && (TimeControl(g) == Classical <==> 1800 <= b)
  {
    assert forall k :: 0 <= k < |base| ==> base[k] != '+';
    BaseDecides(g, base, inc);
    assert "" + "" + base + "" == base;
    ParseIntDecimal("", "", base, "");
  }

  /** `parseInt("1/86400")` stops at the `/` and reads 1. */
  lemma DailyBase()
    ensures ParseInt("1/86400") == Some(1)
  {
    assert "" + "" + "1" + "/86400" == "1/86400";
    assert AllDigits("1") && Decimal("1") == 1;
    ParseIntDecimal("", "", "1", "/86400");
  }

  /** A daily game's `1/86400` is read up to the `/`: a base of one second,
      so it is classed as Bullet. */
  lemma DailyReadsLeadingNumber(g: Game)
    requires g.timeControl == Some("1/86400")
    ensures TimeControl(g) == Bullet
  {
    var tc := "1/86400";
    assert forall k :: 0 <= k < |tc| ==> tc[k] != '+';
    BaseDecides(g, tc, "");
    DailyBase();
  }

  // ----------------------------------------------------------- pagination

  const GamesPerPage: nat := 10

  function Min(a: int, b: int): int { if a <= b then a else b }
  function Max(a: int, b: int): int { if a >= b then a else b }

  /** `s.slice(start, end)` for non-negative bounds: both are clipped to the
      length, and an empty range gives the empty array. */
  function Slice<T>(s: seq<T>, start: nat, end: nat): (r: seq<T>)
    ensures |r| == Max(0, Min(end, |s|) - Min(start, |s|))
    ensures forall j :: 0 <= j < |r| ==> start + j < |s| && r[j] == s[start + j]
  {
    var a := Min(start, |s|);
    var b := Min(end, |s|);
    if a <= b then s[a..b] else []
  }

  /** The games page `page` shows: `games.slice((page-1)*10, page*10)`. */
  function PageOf<T>(games: seq<T>, page: nat): (p: seq<T>)
    requires page >= 1
    ensures |p| <= GamesPerPage
    ensures forall j :: 0 <= j < |p| ==>
      (page - 1) * GamesPerPage + j < |games| && p[j] == games[(page - 1) * GamesPerPage + j]
  {
    Slice(games, (page - 1) * GamesPerPage, page * GamesPerPage)
  }

  /** Page `page` holds at most ten games, the ones at indices
      `(page-1)*10 ..` in order, and is full unless it is the last. */
  lemma PageContents<T>(games: seq<T>, page: nat)
    requires page >= 1
    ensures |PageOf(games, page)| <= GamesPerPage
    ensures forall j :: 0 <= j < |PageOf(games, page)| ==>
      PageOf(games, page)[j] == games[(page - 1) * GamesPerPage + j]
    ensures page * GamesPerPage <= |games| ==> |PageOf(games, page)| == GamesPerPage
  {
  }

  /** The pages from the first to page `k`, one after the other. */
  function PagesUpTo<T>(games: seq<T>, k: nat): seq<T> {
    if k == 0 then [] else PagesUpTo(games, k - 1) + PageOf(games, k)
  }

  /** Reading the pages in order gives the games in order, without gaps or
      repeats: the first `k` pages are the first `10k` games. */
  lemma {:induction false} PagesPartition<T>(games: seq<T>, k: nat)
    ensures PagesUpTo(games, k) == games[..Min(k * GamesPerPage, |games|)]
  {
    if k > 0 {
      PagesPartition(games, k - 1);
      var a := Min((k - 1) * GamesPerPage, |games|);
      var b := Min(k * GamesPerPage, |games|);
      assert PageOf(games, k) == games[a..b];
      assert games[..a] + games[a..b] == games[..b];
    }
  }

  /** `Math.ceil(total / 10)`. */
  function TotalPages(total: nat): (n: nat)
    ensures n * GamesPerPage >= total
    ensures n > 0 ==> (n - 1) * GamesPerPage < total
  {
    (total + GamesPerPage - 1) / GamesPerPage
  }

  /** All pages together show every game when the count is the list's length. */
  lemma AllPagesShowAllGames<T>(games: seq<T>)
    ensures PagesUpTo(games, TotalPages(|games|)) == games
  {
    PagesPartition(games, TotalPages(|games|));
  }

  /** The list page: the fetched games, the count the server reported, and
      the current page number. */
  class Pager {
    var games: seq<Game>
    var total: nat
    var page: nat

    predicate Valid()
      reads this
    {
      page >= 1
    }

    /** Initial state: nothing fetched, page 1. */
    constructor ()
      ensures Valid() && games == [] && total == 0 && page == 1
    {
      games := [];
      total := 0;
      page := 1;
    }

    /** A successful fetch: `data.games || []`, `data.total || 0`, back to page 1. */
    method Loaded(fetched: Option<seq<Game>>, count: Option<nat>)
      modifies this
      ensures Valid()
      ensures games == fetched.GetOr([]) && total == count.GetOr(0) && page == 1
    {
      games := fetched.GetOr([]);
      total := count.GetOr(0);
      page := 1;
    }

    /** A failed fetch empties the list and leaves the page number alone. */
    method Failed()
      modifies this
      requires Valid()
      ensures Valid()
      ensures games == [] && total == 0 && page == old(page)
    {
      games := [];
      total := 0;
    }

    /** The Previous button: `Math.max(1, p - 1)`. */
    method Previous()
      modifies this
      requires Valid()
      ensures Valid() && games == old(games) && total == old(total)
      ensures old(page) > 1 ==> page == old(page) - 1
      ensures old(page) == 1 ==> page == 1
    {
      page := Max(1, page - 1);
    }

    /** The Next button, shown only when there is more than one page:
        `Math.min(totalPages, p + 1)`. */
    method Next()
      modifies this
      requires Valid() && TotalPages(total) > 1
      ensures Valid() && games == old(games) && total == old(total)
      ensures page <= TotalPages(total)
      ensures old(page) < TotalPages(total) ==> page == old(page) + 1
      ensures old(page) >= TotalPages(total) ==> page == TotalPages(total)
    {
      page := Min(TotalPages(total), page + 1);
    }
  }
}
