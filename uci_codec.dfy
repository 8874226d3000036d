/**
 * The pure half of the browser-side UCI client: reading the score and the
 * principal variation out of an `info` line, reading the move out of a
 * `bestmove` line, and the fixed command sequence sent after the handshake.
 *
 * The regular expressions of the client are modelled by the match position
 * they find: a pattern without `^` matches at the leftmost index where it
 * can, and `FirstFrom` finds that index.
 */
module UciCodec {
  import opened Wrappers
  import opened Text

  /** Search depth and number of principal variations the client asks for. */
  const Depth: nat := 18
  const MultiPv: nat := 3

  /** The leftmost index in `i..n` at which `at` holds, if any. */
  function FirstFrom(n: nat, i: nat, at: nat -> bool): (r: Option<nat>)
    ensures r.Some? ==> i <= r.value <= n && at(r.value)
    ensures r.Some? ==> forall k :: i <= k < r.value ==> !at(k)
    ensures r.None? ==> forall k :: i <= k <= n ==> !at(k)
    decreases n + 1 - i
  {
    if i > n then None else if at(i) then Some(i) else FirstFrom(n, i + 1, at)
  }

  /** The search finds an index at which `at` holds and before which it
      holds nowhere. */
  lemma {:induction false} FirstFromAt(n: nat, i: nat, at: nat -> bool, j: nat)
    requires i <= j <= n && at(j)
    requires forall k :: i <= k < j ==> !at(k)
    ensures FirstFrom(n, i, at) == Some(j)
    decreases j - i
  {
    if i < j {
      FirstFromAt(n, i + 1, at, j);
    }
  }

  // ------------------------------------------------------------- scores

  datatype ScoreKind = Cp | Mate
  datatype Score = Score(kind: ScoreKind, value: int)

  /** `-?\d+` can match at index `j`. */
  predicate IntStartsAt(s: string, j: nat) {
    (j + 1 < |s| && s[j] == '-' && IsDigit(s[j + 1])) || (j < |s| && IsDigit(s[j]))
  }

  /** The integer `-?\d+` reads at index `j`: an optional minus sign, then a
      greedy digit run. */
  function SignedIntAt(s: string, j: nat): int
    requires IntStartsAt(s, j)
  {
    if j + 1 < |s| && s[j] == '-' && IsDigit(s[j + 1]) then
      -(Decimal(s[j + 1..DigitEnd(s, j + 1)]) as int)
    else
      Decimal(s[j..DigitEnd(s, j)])
  }

  /** `score (cp|mate) (-?\d+)` can match at index `i`. */
  predicate ScoreMatchAt(s: string, i: nat) {
    || (OccursAt(s, "score cp ", i) && IntStartsAt(s, i + 9))
    || (OccursAt(s, "score mate ", i) && IntStartsAt(s, i + 11))
  }

  /** The kind and value a score token at index `i` carries. */
  function ScoreAt(s: string, i: nat): Score
    requires ScoreMatchAt(s, i)
  {
    if OccursAt(s, "score cp ", i) && IntStartsAt(s, i + 9) then Score(Cp, SignedIntAt(s, i + 9))
    else Score(Mate, SignedIntAt(s, i + 11))
  }

  /** The line holds a `score cp <int>` or `score mate <int>` token somewhere. */
  predicate HasScore(s: string) {
    exists i: nat :: i <= |s| && ScoreMatchAt(s, i)
  }

  /** Where the regular expression matches: the leftmost score token. */
  function ScoreIndex(s: string): (r: Option<nat>)
    ensures r.None? <==> !HasScore(s)
    ensures r.Some? ==> r.value <= |s| && ScoreMatchAt(s, r.value)
    ensures r.Some? ==> forall k: nat :: k < r.value ==> !ScoreMatchAt(s, k)
  {
    var at := (k: nat) => ScoreMatchAt(s, k);
    var r := FirstFrom(|s|, 0, at);
    assert r.None? ==> !HasScore(s) by {
      if r.None? {
        forall k: nat | k <= |s| ensures !ScoreMatchAt(s, k) {
          assert !at(k);
        }
      }
    }
    assert r.Some? ==> forall k: nat :: k < r.value ==> !ScoreMatchAt(s, k) by {
      if r.Some? {
        forall k: nat | k < r.value ensures !ScoreMatchAt(s, k) {
          assert !at(k);
        }
      }
    }
    r
  }

  /** The score token the regular expression picks. */
  function FirstScore(s: string): (r: Option<Score>)
    ensures r.None? <==> !HasScore(s)
  {
    match ScoreIndex(s)
    case Some(i) => Some(ScoreAt(s, i))
    case None => None
  }

  // -------------------------------------------------- principal variation

  /** ` pv ([^\n]+)` matched at index `i`. */
  predicate PvAt(s: string, i: nat) {
    OccursAt(s, " pv ", i) && i + 4 < |s| && s[i + 4] != '\n'
  }

  /** End of the run of non-newline characters that starts at `j`. */
  function LineEnd(s: string, j: nat): (e: nat)
    requires j <= |s|
    ensures j <= e <= |s|
    ensures '\n' !in s[j..e]
    ensures e == |s| || s[e] == '\n'
    decreases |s| - j
  {
    if j < |s| && s[j] != '\n' then LineEnd(s, j + 1) else j
  }

  /** Where ` pv ([^\n]+)` matches: the leftmost index, if any. */
  function PvIndex(s: string): Option<nat> {
    FirstFrom(|s|, 0, (k: nat) => PvAt(s, k))
  }

  /** The trimmed text after the leftmost ` pv `, up to the end of its
      line, or "" when there is none. */
  function PvText(s: string): (pv: string)
    ensures IsTrimmed(pv)
    ensures (forall k: nat :: k <= |s| ==> !PvAt(s, k)) ==> pv == ""
  {
    match PvIndex(s)
    case Some(i) => Trim(s[i + 4..LineEnd(s, i + 4)])
    case None => ""
  }

  /** Where ` pv ` matches leftmost, the text is the rest of that line after
      it, trimmed. */
  lemma PvTextAt(s: string, i: nat)
    requires i <= |s| && PvAt(s, i)
    requires forall k: nat :: k < i ==> !PvAt(s, k)
    ensures PvText(s) == Trim(s[i + 4..LineEnd(s, i + 4)])
  {
    FirstFromAt(|s|, 0, (k: nat) => PvAt(s, k), i);
  }

  /** A run without a newline reaches the end of the string. */
  lemma {:induction false} LineEndOfLine(s: string, j: nat)
    requires j <= |s| && '\n' !in s[j..]
    ensures LineEnd(s, j) == |s|
    decreases |s| - j
  {
    if j < |s| {
      assert s[j] == s[j..][0];
      assert s[j + 1..] == s[j..][1..];
      LineEndOfLine(s, j + 1);
    }
  }

  /** ` pv ` placed after `prefix` matches there, and `t` follows it. */
  lemma PvAtJoin(prefix: string, t: string)
    requires t != [] && t[0] != '\n'
    ensures PvAt(prefix + " pv " + t, |prefix|)
    ensures (prefix + " pv " + t)[|prefix| + 4..] == t
  {
    var s := prefix + " pv " + t;
    var i := |prefix|;
    assert s[i..i + 4] == " pv ";
    assert s[i + 4..] == t;
    assert s[i + 4] == t[0];
  }

  /** Decoding the principal variation: after a prefix in which ` pv `
      cannot match, the text following ` pv ` is read back trimmed. */
  lemma PvRoundTrip(prefix: string, t: string)
    requires t != [] && '\n' !in t
    requires forall k: nat :: k < |prefix| ==> !PvAt(prefix + " pv " + t, k)
    ensures PvText(prefix + " pv " + t) == Trim(t)
  {
    var s := prefix + " pv " + t;
    PvAtJoin(prefix, t);
    PvTextAt(s, |prefix|);
    RestOfLine(s, |prefix| + 4, t);
  }

  /** A final run without a newline is the whole rest of its line. */
  lemma RestOfLine(s: string, j: nat, t: string)
    requires j <= |s| && s[j..] == t && '\n' !in t
    ensures s[j..LineEnd(s, j)] == t
  {
    LineEndOfLine(s, j);
  }

  /** No space in `u` is followed by a `p`. */
  predicate NoSpaceBeforeP(u: string) {
    forall k :: 0 <= k < |u| - 1 ==> !(u[k] == ' ' && u[k + 1] == 'p')
  }

  /** ` pv ` cannot match inside a prefix in which no space is followed by
      a `p`. */
  lemma NoPvInPrefix(prefix: string, t: string)
    requires NoSpaceBeforeP(prefix)
    ensures forall k: nat :: k < |prefix| ==> !PvAt(prefix + " pv " + t, k)
  {
    var s := prefix + " pv " + t;
    forall k: nat | k < |prefix| ensures !PvAt(s, k) {
      assert s[k] == prefix[k];
      assert k + 1 < |prefix| ==> s[k + 1] == prefix[k + 1];
      assert k + 1 == |prefix| ==> s[k + 1] == ' ';
      if PvAt(s, k) {
        OccursChar(s, " pv ", k, 0);
        OccursChar(s, " pv ", k, 1);
        assert false;
      }
    }
  }


  // ------------------------------------------------------------- info lines

  /** A parsed `info` line as the client builds it: `Centipawn`, `Mate`
      (`None` standing for `undefined`) and `Line`, all from White's side. */
  datatype InfoLine = InfoLine(centipawn: Option<int>, mate: Option<int>, line: string)

  /** Exactly one of `Centipawn` and `Mate` is defined. */
  predicate WellShaped(p: InfoLine) {
    p.centipawn.Some? != p.mate.Some?
  }

  /** The score a parsed line carries, from White's side. */
  function ScoreOf(p: InfoLine): (sc: Score)
    ensures sc.kind == Mate <==> p.mate.Some?
    ensures p.mate.Some? ==> sc.value == p.mate.value
    ensures p.mate.None? && p.centipawn.Some? ==> sc.value == p.centipawn.value
    ensures p.mate.None? && p.centipawn.None? ==> sc == Score(Cp, 0)
  {
    if p.mate.Some? then Score(Mate, p.mate.value) else Score(Cp, p.centipawn.GetOr(0))
  }

  /** The side to move of a FEN string: `'w'` when it contains " w ". */
  function SideToMove(fen: string): (side: char)
    ensures side == 'w' <==> Contains(fen, " w ")
    ensures side == 'w' || side == 'b'
  {
    if Contains(fen, " w ") then 'w' else 'b'
  }

  /** A score as the engine reports it (side to move) turned to White's
      point of view: kept when White is to move, negated otherwise. */
  function FromWhite(sc: Score, side: char): (r: Score)
    ensures r.kind == sc.kind
    ensures side == 'w' ==> r.value == sc.value
    ensures side != 'w' ==> r.value == -sc.value
  {
    Score(sc.kind, sc.value * if side == 'w' then 1 else -1)
  }

  /** `parseInfoLine(line, sideToMove)`: `None` (null) exactly when the line
      has no score token; otherwise a well-shaped record whose score is the
      leftmost score token seen from White's side, and whose `Line` is the
      trimmed principal variation. */
  function ParseInfoLine(line: string, side: char): (r: Option<InfoLine>)
    ensures r.None? <==> !HasScore(line)
    ensures r.Some? ==> WellShaped(r.value)
    ensures r.Some? ==> ScoreOf(r.value) == FromWhite(FirstScore(line).value, side)
    ensures r.Some? ==> r.value.line == PvText(line)
  {
    match FirstScore(line)
    case None => None
    case Some(sc) =>
      var w := FromWhite(sc, side);
      Some(InfoLine(if w.kind == Mate then None else Some(w.value),
                    if w.kind == Mate then Some(w.value) else None,
                    PvText(line)))
  }

  /** The two sides read the same line as opposite scores. */
  lemma SidesDisagreeInSign(line: string)
    requires HasScore(line)
    ensures ParseInfoLine(line, 'w').Some? && ParseInfoLine(line, 'w').value.line == ParseInfoLine(line, 'b').value.line
    ensures ScoreOf(ParseInfoLine(line, 'b').value).kind == ScoreOf(ParseInfoLine(line, 'w').value).kind
    ensures ScoreOf(ParseInfoLine(line, 'b').value).value == -ScoreOf(ParseInfoLine(line, 'w').value).value
  {
  }

  /** ` multipv (\d+)` matched at index `i`. */
  predicate MultipvAt(s: string, i: nat) {
    OccursAt(s, " multipv ", i) && i + 9 < |s| && IsDigit(s[i + 9])
  }

  /** The rank of an `info` line: the number after the leftmost
      ` multipv `, or 1 when no such number follows. */
  function Rank(line: string): (k: nat)
    ensures (forall i: nat :: i <= |line| ==> !MultipvAt(line, i)) ==> k == 1
  {
    match FirstFrom(|line|, 0, (i: nat) => MultipvAt(line, i))
    case Some(i) => Decimal(line[i + 9..DigitEnd(line, i + 9)])
    case None => 1
  }

  // ---------------------------------------------------------- round trip

  /** The score token as the engine writes it: `score cp <v>` or
      `score mate <v>`. */
  function ScoreToken(sc: Score): string {
    "score " + (if sc.kind == Cp then "cp " else "mate ") + IntToString(sc.value)
  }

  /** Where `a + b` occurs, `a` occurs and `b` occurs right after it. */
  lemma OccursSplit(s: string, a: string, b: string, i: nat)
    requires OccursAt(s, a + b, i)
    ensures OccursAt(s, a, i) && OccursAt(s, b, i + |a|)
  {
    assert s[i..i + |a|] == (a + b)[..|a|];
    assert s[i + |a|..i + |a| + |b|] == (a + b)[|a|..];
  }

  /** `\d+` reads back a rendered natural number followed by a non-digit. */
  lemma ReadsNat(s: string, j: nat, n: nat)
    requires OccursAt(s, NatToString(n), j)
    requires j + |NatToString(n)| == |s| || !IsDigit(s[j + |NatToString(n)|])
    ensures IsDigit(s[j]) && DigitEnd(s, j) == j + |NatToString(n)|
    ensures Decimal(s[j..DigitEnd(s, j)]) == n
  {
    var d := NatToString(n);
    assert s[j] == d[0];
    DigitEndAfter(s, j, d);
    DecimalOfNatToString(n);
  }

  /** `-?\d+` reads back a rendered integer followed by a non-digit. */
  lemma ReadsInt(s: string, j: nat, v: int)
    requires OccursAt(s, IntToString(v), j)
    requires j + |IntToString(v)| == |s| || !IsDigit(s[j + |IntToString(v)|])
    ensures IntStartsAt(s, j) && SignedIntAt(s, j) == v
  {
    if v < 0 {
      OccursSplit(s, "-", NatToString(-v), j);
      ReadsNat(s, j + 1, -v);
    } else {
      ReadsNat(s, j, v);
    }
  }

  /** A pattern occurring at `i` puts its characters at `i`, `i+1`, ... */
  lemma OccursChar(s: string, pat: string, i: nat, k: nat)
    requires OccursAt(s, pat, i) && k < |pat|
    ensures s[i + k] == pat[k]
  {
    assert s[i..i + |pat|][k] == s[i + k];
  }

  /** `score mate ` at `i` is not `score cp `, so the `cp` branch is not taken. */
  lemma MateIsNotCp(s: string, i: nat)
    requires OccursAt(s, "score mate ", i)
    ensures !OccursAt(s, "score cp ", i)
  {
    OccursChar(s, "score mate ", i, 6);
    if OccursAt(s, "score cp ", i) {
      OccursChar(s, "score cp ", i, 6);
    }
  }

  /** The encoded token, placed at index `i` and followed by a non-digit,
      matches there and carries the score it encodes. */
  lemma TokenReadAt(line: string, i: nat, sc: Score)
    requires OccursAt(line, ScoreToken(sc), i)
    requires i + |ScoreToken(sc)| == |line| || !IsDigit(line[i + |ScoreToken(sc)|])
    ensures ScoreMatchAt(line, i) && ScoreAt(line, i) == sc
  {
    var t := IntToString(sc.value);
    if sc.kind == Cp {
      assert ScoreToken(sc) == "score cp " + t;
      OccursSplit(line, "score cp ", t, i);
      ReadsInt(line, i + 9, sc.value);
    } else {
      assert ScoreToken(sc) == "score mate " + t;
      OccursSplit(line, "score mate ", t, i);
      ReadsInt(line, i + 11, sc.value);
      MateIsNotCp(line, i);
    }
  }

  /** No score token starts inside a prefix without the letter `s`. */
  lemma NoTokenInPrefix(line: string, prefix: string)
    requires 's' !in prefix && prefix <= line
    ensures forall k: nat :: k < |prefix| ==> !ScoreMatchAt(line, k)
  {
    forall k: nat | k < |prefix| ensures !ScoreMatchAt(line, k) {
      assert line[k] == prefix[k];
    }
  }

  /** A token at `i` with none before it is the one the search finds. */
  lemma LeftmostToken(line: string, i: nat)
    requires i <= |line| && ScoreMatchAt(line, i)
    requires forall k: nat :: k < i ==> !ScoreMatchAt(line, k)
    ensures FirstScore(line) == Some(ScoreAt(line, i))
  {
    var r := ScoreIndex(line);
    assert r.Some? && r.value == i;
  }

  /** Decoding an encoded score: after a prefix in which no score token
      matches (a real line's `seldepth` included), the score token is read
      back exactly, provided no digit follows it. */
  lemma ScoreRoundTrip(prefix: string, sc: Score, rest: string)
    requires forall k: nat :: k < |prefix| ==> !ScoreMatchAt(prefix + ScoreToken(sc) + rest, k)
    requires rest == [] || !IsDigit(rest[0])
    ensures FirstScore(prefix + ScoreToken(sc) + rest) == Some(sc)
  {
    var tok := ScoreToken(sc);
    var line := prefix + tok + rest;
    var i := |prefix|;
    assert line[i..i + |tok|] == tok;
    assert i + |tok| < |line| ==> line[i + |tok|] == rest[0];
    TokenReadAt(line, i, sc);
    LeftmostToken(line, i);
  }

  /** An `info` line built from a score reports that score from White's
      side: `cp 25` reads as +25 with White to move and -25 with Black. */
  lemma InfoScoreRoundTrip(prefix: string, sc: Score, rest: string, side: char)
    requires forall k: nat :: k < |prefix| ==> !ScoreMatchAt(prefix + ScoreToken(sc) + rest, k)
    requires rest == [] || !IsDigit(rest[0])
    ensures var p := ParseInfoLine(prefix + ScoreToken(sc) + rest, side);
      && p.Some?
      && (sc.kind == Cp ==> p.value.centipawn == Some(if side == 'w' then sc.value else -sc.value) && p.value.mate.None?)
      && (sc.kind == Mate ==> p.value.mate == Some(if side == 'w' then sc.value else -sc.value) && p.value.centipawn.None?)
  {
    ScoreRoundTrip(prefix, sc, rest);
    ParsedScore(prefix + ScoreToken(sc) + rest, sc, side);
  }

  /** A line whose leftmost score token is `sc` parses to `sc` turned to
      White's side, in the field its kind selects. */
  lemma ParsedScore(line: string, sc: Score, side: char)
    requires FirstScore(line) == Some(sc)
    ensures var p := ParseInfoLine(line, side);
      && p.Some?
      && (sc.kind == Cp ==> p.value.centipawn == Some(if side == 'w' then sc.value else -sc.value) && p.value.mate.None?)
      && (sc.kind == Mate ==> p.value.mate == Some(if side == 'w' then sc.value else -sc.value) && p.value.centipawn.None?)
  {
    var w := FromWhite(sc, side);
    assert ParseInfoLine(line, side) == Some(InfoLine(if w.kind == Mate then None else Some(w.value),
                                                    if w.kind == Mate then Some(w.value) else None,
                                                    PvText(line)));
  }

  /** A whole `info` line built from a score and a principal variation
      parses to the record holding that score from White's side and the
      trimmed variation. */
  lemma InfoLineRoundTrip(prefix: string, sc: Score, t: string, side: char)
    requires forall k: nat :: k < |prefix| ==> !ScoreMatchAt(prefix + ScoreToken(sc) + (" pv " + t), k)
    requires NoSpaceBeforeP(prefix + ScoreToken(sc))
    requires t != [] && '\n' !in t
    ensures var w := if side == 'w' then sc.value else -sc.value;
      ParseInfoLine(prefix + ScoreToken(sc) + " pv " + t, side)
        == Some(InfoLine(if sc.kind == Cp then Some(w) else None, if sc.kind == Mate then Some(w) else None, Trim(t)))
  {
    var line := prefix + ScoreToken(sc) + " pv " + t;
    assert line == prefix + ScoreToken(sc) + (" pv " + t);
    InfoScoreRoundTrip(prefix, sc, " pv " + t, side);
    NoPvInPrefix(prefix + ScoreToken(sc), t);
    PvRoundTrip(prefix + ScoreToken(sc), t);
  }

  /** The line prefix of the examples below: no score token can start in it. */
  const ExamplePrefix: string := "info depth 18 multipv 1 "

  lemma ExamplePrefixHasNoS()
    ensures 's' !in ExamplePrefix
  {
    assert forall k :: 0 <= k < |ExamplePrefix| ==> ExamplePrefix[k] != 's';
  }

  /** The text before ` pv ` in the examples: no space in it is followed by `p`. */
  lemma ExampleHasNoSpaceP(u: string)
    requires u == ExamplePrefix + "score cp 25" || u == ExamplePrefix + "score mate 3"
    ensures NoSpaceBeforeP(u)
  {
    assert forall k :: 0 <= k < |u| - 1 ==> u[k] != ' ' || u[k + 1] != 'p';
  }

  /** The conditions of `InfoLineRoundTrip` for an example line. */
  lemma ExampleConditions(line: string, sc: Score)
    requires sc == Score(Cp, 25) || sc == Score(Mate, 3)
    requires line == ExamplePrefix + ScoreToken(sc) + (" pv " + "e2e4")
    ensures forall k: nat :: k < |ExamplePrefix| ==> !ScoreMatchAt(line, k)
    ensures NoSpaceBeforeP(ExamplePrefix + ScoreToken(sc))
  {
    assert IntToString(25) == "25" && IntToString(3) == "3";
    ExamplePrefixHasNoS();
    NoTokenInPrefix(line, ExamplePrefix);
    ExampleHasNoSpaceP(ExamplePrefix + ScoreToken(sc));
  }

  /** `info depth 18 multipv 1 score cp 25 pv e2e4` reads as +25 with White
      to move and -25 with Black to move, with the line `e2e4`. */
  lemma CentipawnExample(line: string)
    requires line == "info depth 18 multipv 1 score cp 25 pv e2e4"
    ensures ParseInfoLine(line, 'w') == Some(InfoLine(Some(25), None, "e2e4"))
    ensures ParseInfoLine(line, 'b') == Some(InfoLine(Some(-25), None, "e2e4"))
  {
    var sc := Score(Cp, 25);
    assert IntToString(25) == "25";
    assert line == ExamplePrefix + ScoreToken(sc) + " pv " + "e2e4";
    assert line == ExamplePrefix + ScoreToken(sc) + (" pv " + "e2e4");
    ExampleConditions(line, sc);
    TrimTrimmed("e2e4");
    InfoLineRoundTrip(ExamplePrefix, sc, "e2e4", 'w');
    InfoLineRoundTrip(ExamplePrefix, sc, "e2e4", 'b');
  }

  /** `info depth 18 multipv 1 score mate 3 pv e2e4` reads as mate +3 with
      White to move and -3 with Black to move, with the line `e2e4`. */
  lemma MateExample(line: string)
    requires line == "info depth 18 multipv 1 score mate 3 pv e2e4"
    ensures ParseInfoLine(line, 'w') == Some(InfoLine(None, Some(3), "e2e4"))
    ensures ParseInfoLine(line, 'b') == Some(InfoLine(None, Some(-3), "e2e4"))
  {
    var sc := Score(Mate, 3);
    assert IntToString(3) == "3";
    assert line == ExamplePrefix + ScoreToken(sc) + " pv " + "e2e4";
    assert line == ExamplePrefix + ScoreToken(sc) + (" pv " + "e2e4");
    ExampleConditions(line, sc);
    TrimTrimmed("e2e4");
    InfoLineRoundTrip(ExamplePrefix, sc, "e2e4", 'w');
    InfoLineRoundTrip(ExamplePrefix, sc, "e2e4", 'b');
  }

  // ------------------------------------------------------------- bestmove

  /** End of the run of non-white-space characters that starts at `j`. */
  function WordEnd(s: string, j: nat): (e: nat)
    requires j <= |s|
    ensures j <= e <= |s|
    ensures forall k :: j <= k < e ==> !IsSpace(s[k])
    ensures e == |s| || IsSpace(s[e])
    decreases |s| - j
  {
    if j < |s| && !IsSpace(s[j]) then WordEnd(s, j + 1) else j
  }

  /** `parseBestMove(line)`, i.e. `^bestmove (\S+)`: the word right after a
      leading "bestmove ", or `None` when the line does not start so or a
      space follows. */
  function ParseBestMove(line: string): (r: Option<string>)
    ensures r.Some? <==> "bestmove " <= line && |line| > 9 && !IsSpace(line[9])
    ensures r.Some? ==> r.value != [] && "bestmove " + r.value <= line
    ensures r.Some? ==> forall c <- r.value :: !IsSpace(c)
    ensures r.Some? ==> |line| == 9 + |r.value| || IsSpace(line[9 + |r.value|])
  {
    if "bestmove " <= line && |line| > 9 && !IsSpace(line[9]) then
      var e := WordEnd(line, 9);
      assert line[..e] == "bestmove " + line[9..e];
      Some(line[9..e])
    else None
  }

  /** What follows the move — a `ponder` suggestion or anything else that
      starts with white space — does not change the move read. */
  lemma {:induction false} BestMoveIgnoresSuffix(m: string, rest: string)
    requires m != [] && forall c <- m :: !IsSpace(c)
    requires rest == [] || IsSpace(rest[0])
    ensures ParseBestMove("bestmove " + m + rest) == Some(m)
  {
    var line := "bestmove " + m + rest;
    assert line[9..9 + |m|] == m;
    assert "bestmove " <= line;
    assert line[9] == m[0];
  }

  // ------------------------------------------------------------- commands

  /** The commands sent once the engine answers `uciok`, in order. */
  function StartCommands(fen: string): (cmds: seq<string>)
    ensures |cmds| == 4
    ensures cmds[0] == "ucinewgame"
    ensures cmds[1] == "position fen " + fen
    ensures cmds[2] == "setoption name MultiPV value 3"
    ensures cmds[3] == "go depth 18"
  {
    ["ucinewgame",
     "position fen " + fen,
     "setoption name MultiPV value " + NatToString(MultiPv),
     "go depth " + NatToString(Depth)]
  }
}
