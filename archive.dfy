/**
 * Collecting a player's games from the monthly Chess.com archives: which
 * time classes to keep, how many months to look back, the walk from the
 * current month backwards, and the filter applied to each month's games.
 *
 * The HTTP request for one month is a parameter `fetch`, a function from
 * (year, month) to what the request gave: a transport error, or a status
 * code with the decoded `games` list.
 */
module Archive {
  import opened Wrappers
  import opened Text

  /** The time classes the service ever returns. */
  const TimeClasses: set<string> := {"rapid", "blitz", "bullet"}

  /** `TIMEFRAME_MONTHS` */
  const TimeframeMonths: map<string, nat> :=
    map["3_months" := 3, "1_year" := 12, "5_years" := 60, "10_years" := 120]

  /** The time classes to keep: the requested ones the service supports,
      all three when none is requested, and all three again when the
      request names none of them. */
  function AllowedClasses(gameTypes: Option<seq<string>>): (allowed: set<string>)
    ensures allowed != {} && allowed <= TimeClasses
    ensures gameTypes.None? ==> allowed == TimeClasses
    ensures gameTypes.Some? && (exists t :: t in gameTypes.value && t in TimeClasses) ==>
      allowed == set t | t in gameTypes.value && t in TimeClasses
    ensures gameTypes.Some? && (forall t :: t in gameTypes.value ==> t !in TimeClasses) ==>
      allowed == TimeClasses
  {
    var requested := if gameTypes.None? then ["rapid", "blitz", "bullet"] else gameTypes.value;
    var both := TimeClasses * set t | t in requested;
    AllowedCases(requested, both);
    if both == {} then TimeClasses else both
  }

  /** The intersection is empty exactly when no requested class is
      supported, and is all three for the default request. */
  lemma AllowedCases(requested: seq<string>, both: set<string>)
    requires both == TimeClasses * set t | t in requested
    ensures both == set t | t in requested && t in TimeClasses
    ensures both == {} <==> forall t :: t in requested ==> t !in TimeClasses
    ensures requested == ["rapid", "blitz", "bullet"] ==> both == TimeClasses
  {
    if requested == ["rapid", "blitz", "bullet"] {
      assert "rapid" in requested && "blitz" in requested && "bullet" in requested;
    }
    if exists t :: t in requested && t in TimeClasses {
      var t :| t in requested && t in TimeClasses;
      assert t in both;
    }
  }

  /** `TIMEFRAME_MONTHS.get(timeframe, 3)` */
  function MonthsToFetch(timeframe: string): (n: nat)
    ensures n in {3, 12, 60, 120}
    ensures timeframe == "3_months" ==> n == 3
    ensures timeframe == "1_year" ==> n == 12
    ensures timeframe == "5_years" ==> n == 60
    ensures timeframe == "10_years" ==> n == 120
    ensures timeframe !in {"3_months", "1_year", "5_years", "10_years"} ==> n == 3
  {
    if timeframe in TimeframeMonths then TimeframeMonths[timeframe] else 3
  }

  // ---------------------------------------------------------- month walk

  /** A calendar month. */
  datatype YearMonth = YearMonth(year: int, month: int)

  predicate ValidMonth(ym: YearMonth) {
    1 <= ym.month <= 12
  }

  /** Months since the start of year 0, so that months compare in time order. */
  function Ordinal(ym: YearMonth): int {
    ym.year * 12 + ym.month - 1
  }

  /** One step back: the month before, December of the previous year after
      January. */
  function PreviousMonth(ym: YearMonth): (p: YearMonth)
    requires ValidMonth(ym)
    ensures ValidMonth(p)
    ensures Ordinal(p) == Ordinal(ym) - 1
  {
    if ym.month - 1 < 1 then YearMonth(ym.year - 1, 12) else YearMonth(ym.year, ym.month - 1)
  }

  /** The months the loop visits, starting at `start`, `n` of them. */
  function Walk(start: YearMonth, n: nat): (w: seq<YearMonth>)
    requires ValidMonth(start)
    ensures |w| == n
    ensures forall k :: 0 <= k < n ==> ValidMonth(w[k]) && Ordinal(w[k]) == Ordinal(start) - k
    ensures forall k :: 0 <= k < n - 1 ==> w[k + 1] == PreviousMonth(w[k])
    decreases n
  {
    if n == 0 then [] else [start] + Walk(PreviousMonth(start), n - 1)
  }

  /** The walk begins at the current month, goes strictly back in time and
      so never visits a month twice. */
  lemma WalkBackwards(start: YearMonth, n: nat)
    requires ValidMonth(start)
    ensures n > 0 ==> Walk(start, n)[0] == start
    ensures forall i, j :: 0 <= i < j < n ==> Ordinal(Walk(start, n)[j]) < Ordinal(Walk(start, n)[i])
    ensures forall i, j :: 0 <= i < j < n ==> Walk(start, n)[i] != Walk(start, n)[j]
  {
  }

  // ------------------------------------------------------------ one month

  /** The `white` / `black` object of an archived game (`{}` when absent). */
  datatype Side = Side(username: Option<string>, result: Option<string>)

  /** An archived game as the Chess.com API gives it; every field may be
      missing. */
  datatype ArchivedGame = ArchivedGame(
    pgn: Option<string>,
    tcn: Option<string>,
    uuid: Option<string>,
    endTime: Option<int>,
    timeClass: Option<string>,
    timeControl: Option<string>,
    white: Option<Side>,
    black: Option<Side>)

  /** The record the service returns for a kept game. */
  datatype StoredGame = StoredGame(
    pgn: string,
    tcn: Option<string>,
    username: string,
    gameUuid: Option<string>,
    endTime: Option<int>,
    timeClass: string,
    whiteUsername: Option<string>,
    blackUsername: Option<string>,
    whiteResult: Option<string>,
    blackResult: Option<string>,
    timeControl: Option<string>,
    white: Side,
    black: Side,
    uuid: Option<string>)

  /** What the request for one month gave. */
  datatype MonthFetch = TransportError | Response(status: int, games: Option<seq<ArchivedGame>>)

  /** `(g.get("time_class") or "").lower()` */
  function ClassOf(g: ArchivedGame): (c: string)
    ensures g.timeClass.None? ==> c == ""
    ensures g.timeClass.Some? ==>
      |c| == |g.timeClass.value| && forall k :: 0 <= k < |c| ==> c[k] == LowerChar(g.timeClass.value[k])
  {
    Lower(g.timeClass.GetOr(""))
  }

  /** The record built for a kept game. */
  function Store(g: ArchivedGame, username: string): (s: StoredGame)
    ensures s.timeClass == ClassOf(g) && s.username == username
  {
    var white := g.white.GetOr(Side(None, None));
    var black := g.black.GetOr(Side(None, None));
    StoredGame(g.pgn.GetOr(""), g.tcn, username, g.uuid, g.endTime, ClassOf(g),
               white.username, black.username, white.result, black.result,
               g.timeControl, white, black, g.uuid)
  }

  /** The games of one archive page whose time class is allowed, in order. */
  function Keep(gs: seq<ArchivedGame>, allowed: set<string>, username: string): (kept: seq<StoredGame>)
    ensures |kept| <= |gs|
    ensures forall k :: 0 <= k < |kept| ==> kept[k].timeClass in allowed && kept[k].username == username
  {
    if gs == [] then []
    else
      var last := gs[|gs| - 1];
      Keep(gs[..|gs| - 1], allowed, username)
        + (if ClassOf(last) in allowed then [Store(last, username)] else [])
  }

  /** Filtering keeps the order: the games kept from two pieces of a list
      are those of the first piece followed by those of the second. */
  lemma {:induction false} KeepAppend(a: seq<ArchivedGame>, b: seq<ArchivedGame>, allowed: set<string>, username: string)
    ensures Keep(a + b, allowed, username) == Keep(a, allowed, username) + Keep(b, allowed, username)
    decreases |b|
  {
    if b == [] {
      assert a + b == a;
    } else {
      var b' := b[..|b| - 1];
      assert (a + b)[..|a + b| - 1] == a + b';
      assert (a + b)[|a + b| - 1] == b[|b| - 1];
      KeepAppend(a, b', allowed, username);
    }
  }

  /** A single game is kept exactly when its lower-cased class is allowed. */
  lemma KeepOne(g: ArchivedGame, allowed: set<string>, username: string)
    ensures Keep([g], allowed, username) == if ClassOf(g) in allowed then [Store(g, username)] else []
  {
    assert [g][..0] == [];
  }

  /** What one month adds: the kept games of a 200 response; nothing for a
      404, any other status or a transport error. */
  function MonthGames(resp: MonthFetch, allowed: set<string>, username: string): (gs: seq<StoredGame>)
    ensures !(resp.Response? && resp.status == 200) ==> gs == []
  {
    if resp.Response? && resp.status == 200 then Keep(resp.games.GetOr([]), allowed, username)
    else []
  }

  /** The games of the months of a walk, month by month in walk order. */
  function Collect(fetch: YearMonth -> MonthFetch, months: seq<YearMonth>, allowed: set<string>, username: string): (gs: seq<StoredGame>)
    ensures forall k :: 0 <= k < |gs| ==> gs[k].timeClass in allowed
  {
    if months == [] then []
    else
      Collect(fetch, months[..|months| - 1], allowed, username)
        + MonthGames(fetch(months[|months| - 1]), allowed, username)
  }

  /** A month whose request fails, is missing or is refused adds the same
      as an empty month: the walk goes on past it. */
  lemma {:induction false} FailedMonthSkipped(fetch: YearMonth -> MonthFetch, fetch': YearMonth -> MonthFetch,
                                              months: seq<YearMonth>, bad: YearMonth, allowed: set<string>, username: string)
    requires !(fetch(bad).Response? && fetch(bad).status == 200)
    requires fetch'(bad) == Response(200, Some([]))
    requires forall ym :: ym != bad ==> fetch(ym) == fetch'(ym)
    ensures Collect(fetch, months, allowed, username) == Collect(fetch', months, allowed, username)
  {
    if months != [] {
      FailedMonthSkipped(fetch, fetch', months[..|months| - 1], bad, allowed, username);
      assert MonthGames(fetch(months[|months| - 1]), allowed, username)
          == MonthGames(fetch'(months[|months| - 1]), allowed, username);
    }
  }

  /** One more month of the walk appends that month's games. */
  lemma CollectStep(fetch: YearMonth -> MonthFetch, months: seq<YearMonth>, k: nat, allowed: set<string>, username: string)
    requires k < |months|
    ensures Collect(fetch, months[..k + 1], allowed, username)
         == Collect(fetch, months[..k], allowed, username) + MonthGames(fetch(months[k]), allowed, username)
  {
    assert months[..k + 1][..k] == months[..k];
  }

  /** The inner loop of one 200 response: the games of the page whose
      lower-cased time class is allowed, in page order. */
  method KeepPage(page: seq<ArchivedGame>, allowed: set<string>, username: string)
    returns (kept: seq<StoredGame>)
    ensures kept == Keep(page, allowed, username)
  {
    kept := [];
    var j := 0;
    while j < |page|
      invariant 0 <= j <= |page|
      invariant kept == Keep(page[..j], allowed, username)
    {
      var g := page[j];
      var timeClass := Lower(g.timeClass.GetOr(""));
      KeepOne(g, allowed, username);
      KeepAppend(page[..j], [g], allowed, username);
      assert page[..j + 1] == page[..j] + [g];
      if timeClass in allowed {
        kept := kept + [Store(g, username)];
      }
      j := j + 1;
    }
    assert page[..j] == page;
  }

  /** One month of the walk: the kept games of a 200 response, nothing for
      a failed, missing or refused month. */
  method FetchMonth(resp: MonthFetch, allowed: set<string>, username: string)
    returns (kept: seq<StoredGame>)
    ensures kept == MonthGames(resp, allowed, username)
  {
    kept := [];
    if resp.Response? && resp.status == 200 {
      kept := KeepPage(resp.games.GetOr([]), allowed, username);
    }
  }

  /** `fetch_chess_com_games(username, timeframe, game_types)` with the
      current month `now` and the archive requests given as `fetch`. */
  method FetchGames(username: string, timeframe: string, gameTypes: Option<seq<string>>,
                    now: YearMonth, fetch: YearMonth -> MonthFetch)
    returns (games: seq<StoredGame>)
    requires ValidMonth(now)
    ensures games == Collect(fetch, Walk(now, MonthsToFetch(timeframe)), AllowedClasses(gameTypes), username)
  {
    var allowed := AllowedClasses(gameTypes);
    var monthsToFetch := MonthsToFetch(timeframe);
    ghost var walk := Walk(now, monthsToFetch);
    games := [];
    var year, month := now.year, now.month;
    var step := 0;
    while step < monthsToFetch
      invariant 0 <= step <= monthsToFetch
      invariant 1 <= month <= 12
      invariant step < monthsToFetch ==> walk[step] == YearMonth(year, month)
      invariant games == Collect(fetch, walk[..step], allowed, username)
    {
      var here := YearMonth(year, month);
      var kept := FetchMonth(fetch(here), allowed, username);
      CollectStep(fetch, walk, step, allowed, username);
      games := games + kept;
      month := month - 1;
      if month < 1 {
        month := 12;
        year := year - 1;
      }
      assert YearMonth(year, month) == PreviousMonth(here);
      step := step + 1;
    }
    assert walk[..step] == walk;
  }
}
