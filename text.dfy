/**
 * The handful of JavaScript and Python string primitives the modelled code
 * relies on: `trim`, `split` on one character, substring search, `parseInt`
 * and ASCII lower-casing.  Strings are sequences of code points.
 */
module Text {
  import opened Wrappers

  /** JavaScript's WhiteSpace and LineTerminator code points: what `trim`
      removes and what the regular-expression class `\s` matches. */
  predicate IsSpace(c: char) {
    c == '\t' || c == '\n' || c == '\U{B}' || c == '\U{C}' || c == '\r' || c == ' '
    || c == '\U{A0}' || c == '\U{1680}' || ('\U{2000}' <= c <= '\U{200A}')
    || c == '\U{2028}' || c == '\U{2029}' || c == '\U{202F}' || c == '\U{205F}'
    || c == '\U{3000}' || c == '\U{FEFF}'
  }

  /** The regular-expression class `\d`: ASCII digits only. */
  predicate IsDigit(c: char) {
    '0' <= c <= '9'
  }

  predicate AllDigits(s: string) {
    forall k :: 0 <= k < |s| ==> IsDigit(s[k])
  }

  /** A string that `trim` leaves alone. */
  predicate IsTrimmed(s: string) {
    s == [] || (!IsSpace(s[0]) && !IsSpace(s[|s| - 1]))
  }

  /** `pat` occurs in `s` starting at index `i`. */
  predicate OccursAt(s: string, pat: string, i: nat) {
    i + |pat| <= |s| && s[i..i + |pat|] == pat
  }

  /** `s.includes(pat)` / Python's `pat in s`. */
  predicate Contains(s: string, pat: string) {
    exists i: nat :: i <= |s| && OccursAt(s, pat, i)
  }

  // ---------------------------------------------------------------- trim

  /** `r` is the infix of `s` that starts at index `i`. */
  predicate InfixAt(s: string, r: string, i: nat) {
    i + |r| <= |s| && r == s[i..i + |r|]
  }

  /** Everything before index `i` and from index `j` on is white space. */
  predicate SpaceOutside(s: string, i: nat, j: nat)
    requires i <= j <= |s|
  {
    (forall k :: 0 <= k < i ==> IsSpace(s[k])) && (forall k :: j <= k < |s| ==> IsSpace(s[k]))
  }

  function TrimStart(s: string): (r: string)
    ensures |r| <= |s| && r == s[|s| - |r|..]
    ensures forall k :: 0 <= k < |s| - |r| ==> IsSpace(s[k])
    ensures r == [] || !IsSpace(r[0])
  {
    if s != [] && IsSpace(s[0]) then TrimStart(s[1..]) else s
  }

  function TrimEnd(s: string): (r: string)
    ensures |r| <= |s| && r == s[..|r|]
    ensures forall k :: |r| <= k < |s| ==> IsSpace(s[k])
    ensures r == [] || !IsSpace(r[|r| - 1])
  {
    if s != [] && IsSpace(s[|s| - 1]) then TrimEnd(s[..|s| - 1]) else s
  }

  /** Where the trimmed text starts: after the leading white space. */
  function TrimOffset(s: string): nat {
    |s| - |TrimStart(s)|
  }

  /** `s.trim()`: the infix of `s` that neither starts nor ends with white
      space, obtained by dropping white space at both ends. */
  function Trim(s: string): (r: string)
    ensures IsTrimmed(r)
    ensures InfixAt(s, r, TrimOffset(s))
    ensures SpaceOutside(s, TrimOffset(s), TrimOffset(s) + |r|)
  {
    TrimEndInfix(s, TrimStart(s));
    TrimEnd(TrimStart(s))
  }

  /** The white space `TrimEnd` drops from the suffix `t` of `s` is white
      space at the end of `s`. */
  lemma TrimEndInfix(s: string, t: string)
    requires |t| <= |s| && t == s[|s| - |t|..]
    requires forall k :: 0 <= k < |s| - |t| ==> IsSpace(s[k])
    ensures var i := |s| - |t|; var r := TrimEnd(t);
      InfixAt(s, r, i) && SpaceOutside(s, i, i + |r|)
  {
    var i := |s| - |t|;
    var r := TrimEnd(t);
    assert s[i..i + |r|] == t[..|r|];
    forall k | i + |r| <= k < |s| ensures IsSpace(s[k]) {
      assert s[k] == t[k - i];
    }
  }

  /** Trimming a string that is already trimmed changes nothing. */
  lemma TrimTrimmed(s: string)
    requires IsTrimmed(s)
    ensures Trim(s) == s
  {
    assert TrimStart(s) == s;
    assert TrimEnd(s) == s;
  }

  // --------------------------------------------------------------- split

  /** `s.split(sep)` for a one-character separator: the pieces between
      separators, always at least one. */
  function Split(s: string, sep: char): (parts: seq<string>)
    ensures |parts| >= 1
    ensures forall k :: 0 <= k < |parts| ==> sep !in parts[k]
    ensures Join(parts, sep) == s
  {
    if s == [] then [""]
    else
      var rest := Split(s[1..], sep);
      if s[0] == sep then [""] + rest
      else [[s[0]] + rest[0]] + rest[1..]
  }

  /** `parts.join(sep)`, the inverse of `Split`. */
  function Join(parts: seq<string>, sep: char): string
    requires |parts| >= 1
  {
    if |parts| == 1 then parts[0] else parts[0] + [sep] + Join(parts[1..], sep)
  }

  /** The first piece of a split is everything before the first separator. */
  lemma {:induction false} SplitFirst(a: string, sep: char, b: string)
    requires sep !in a
    ensures Split(a + [sep] + b, sep)[0] == a
  {
    if a == [] {
      assert (a + [sep] + b)[0] == sep;
    } else {
      assert (a + [sep] + b)[1..] == a[1..] + [sep] + b;
      SplitFirst(a[1..], sep, b);
    }
  }

  /** The piece before the first separator comes first, and the rest
      splits on its own. */
  lemma {:induction false} SplitCons(a: string, sep: char, b: string)
    requires sep !in a
    ensures Split(a + [sep] + b, sep) == [a] + Split(b, sep)
  {
    var s := a + [sep] + b;
    if a == [] {
      assert s[0] == sep && s[1..] == b;
    } else {
      assert s[0] == a[0];
      assert s[1..] == a[1..] + [sep] + b;
      SplitCons(a[1..], sep, b);
      assert [a[0]] + a[1..] == a;
    }
  }

  /** A string without the separator splits into itself alone. */
  lemma {:induction false} SplitNoSep(a: string, sep: char)
    requires sep !in a
    ensures Split(a, sep) == [a]
  {
    if a != [] {
      SplitNoSep(a[1..], sep);
    }
  }

  // ------------------------------------------------------ decimal numbers

  /** End of the run of digits that starts at `j` (`\d+` is greedy). */
  function DigitEnd(s: string, j: nat): (e: nat)
    requires j <= |s|
    ensures j <= e <= |s|
    ensures AllDigits(s[j..e])
    ensures e == |s| || !IsDigit(s[e])
    decreases |s| - j
  {
    if j < |s| && IsDigit(s[j]) then DigitEnd(s, j + 1) else j
  }

  lemma {:induction false} DigitEndOfDigits(s: string, j: nat)
    requires j <= |s| && AllDigits(s)
    ensures DigitEnd(s, j) == |s|
    decreases |s| - j
  {
    if j < |s| {
      DigitEndOfDigits(s, j + 1);
    }
  }

  /** A digit run written at `j` and followed by a non-digit ends there. */
  lemma {:induction false} DigitEndAfter(s: string, j: nat, d: string)
    requires j + |d| <= |s| && s[j..j + |d|] == d && AllDigits(d)
    requires j + |d| == |s| || !IsDigit(s[j + |d|])
    ensures DigitEnd(s, j) == j + |d|
    decreases |d|
  {
    if d != [] {
      assert s[j] == d[0];
      assert s[j + 1..j + 1 + |d[1..]|] == d[1..];
      DigitEndAfter(s, j + 1, d[1..]);
    }
  }

  function DigitValue(c: char): nat
    requires IsDigit(c)
  {
    (c as int - '0' as int) as nat
  }

  /** The number a run of decimal digits denotes (`parseInt(ds, 10)`). */
  function Decimal(ds: string): nat
    requires AllDigits(ds)
  {
    if ds == [] then 0 else Decimal(ds[..|ds| - 1]) * 10 + DigitValue(ds[|ds| - 1])
  }

  /** Decimal rendering of a natural number, without leading zeros. */
  function NatToString(n: nat): (s: string)
    ensures s != [] && AllDigits(s)
  {
    var d := ['0' + (n % 10) as char];
    if n < 10 then d else NatToString(n / 10) + d
  }

  /** Decimal rendering of an integer, with a leading `-` when negative. */
  function IntToString(v: int): string {
    if v < 0 then "-" + NatToString(-v) else NatToString(v)
  }

  /** Reading back a rendered natural number gives the number. */
  lemma {:induction false} DecimalOfNatToString(n: nat)
    ensures Decimal(NatToString(n)) == n
  {
    var s := NatToString(n);
    if n >= 10 {
      assert s[..|s| - 1] == NatToString(n / 10);
      DecimalOfNatToString(n / 10);
    }
  }

  // ------------------------------------------------------------ parseInt

  predicate IsHexDigit(c: char) {
    IsDigit(c) || 'a' <= c <= 'f' || 'A' <= c <= 'F'
  }

  function HexValue(c: char): nat
    requires IsHexDigit(c)
  {
    if IsDigit(c) then DigitValue(c)
    else if 'a' <= c <= 'f' then (c as int - 'a' as int + 10) as nat
    else (c as int - 'A' as int + 10) as nat
  }

  /** Length of the longest prefix of hexadecimal digits. */
  function HexRun(s: string): (n: nat)
    ensures n <= |s|
    ensures forall k :: 0 <= k < n ==> IsHexDigit(s[k])
    ensures n == |s| || !IsHexDigit(s[n])
  {
    if s != [] && IsHexDigit(s[0]) then 1 + HexRun(s[1..]) else 0
  }

  function Hex(hs: string): nat
    requires forall k :: 0 <= k < |hs| ==> IsHexDigit(hs[k])
  {
    if hs == [] then 0 else Hex(hs[..|hs| - 1]) * 16 + HexValue(hs[|hs| - 1])
  }

  /** The magnitude `parseInt` reads after the sign: a `0x`/`0X` prefix
      switches to base 16; `None` is NaN (no digit at all). */
  function ParseMagnitude(s: string): Option<nat> {
    if |s| >= 2 && s[0] == '0' && (s[1] == 'x' || s[1] == 'X') then
      var n := HexRun(s[2..]);
      if n == 0 then None else Some(Hex(s[2..2 + n]))
    else
      var e := DigitEnd(s, 0);
      if e == 0 then None else Some(Decimal(s[..e]))
  }

  /** JavaScript's `parseInt(s)` without a radix: leading white space is
      skipped, one optional sign is read, then the longest run of digits;
      `None` stands for NaN.  (Float rounding of huge values is not modelled.) */
  function ParseInt(s: string): (r: Option<int>)
    ensures AllDigits(s) && s != [] ==> r == Some(Decimal(s))
  {
    var t := TrimStart(s);
    assert AllDigits(s) && s != [] ==> t == s && DigitEnd(s, 0) == |s| && s[..|s|] == s by {
      if AllDigits(s) && s != [] {
        DigitEndOfDigits(s, 0);
      }
    }
    if t != [] && t[0] == '-' then
      match ParseMagnitude(t[1..])
      case Some(m) => Some(-(m as int))
      case None => None
    else if t != [] && t[0] == '+' then
      match ParseMagnitude(t[1..])
      case Some(m) => Some(m)
      case None => None
    else
      match ParseMagnitude(t)
      case Some(m) => Some(m)
      case None => None
  }

  /** Every character of `ws` is white space. */
  predicate AllSpace(ws: string) {
    forall k :: 0 <= k < |ws| ==> IsSpace(ws[k])
  }

  /** Leading white space is dropped up to the first other character. */
  lemma {:induction false} TrimStartAfterSpace(ws: string, x: string)
    requires AllSpace(ws)
    requires x == [] || !IsSpace(x[0])
    ensures TrimStart(ws + x) == x
    decreases |ws|
  {
    if ws == [] {
      assert ws + x == x;
    } else {
      assert (ws + x)[0] == ws[0];
      assert (ws + x)[1..] == ws[1..] + x;
      TrimStartAfterSpace(ws[1..], x);
    }
  }

  /** A run of decimal digits followed by a non-digit reads as the run's
      value, unless it is a lone `0` that opens a `0x` prefix. */
  lemma DecimalMagnitude(d: string, rest: string)
    requires d != [] && AllDigits(d)
    requires rest == [] || !IsDigit(rest[0])
    requires !(d == "0" && rest != [] && (rest[0] == 'x' || rest[0] == 'X'))
    ensures ParseMagnitude(d + rest) == Some(Decimal(d))
  {
    var s := d + rest;
    assert s[0] == d[0];
    if |d| >= 2 {
      assert s[1] == d[1];
    } else if |s| >= 2 {
      assert s[1] == rest[0];
      assert d == [d[0]];
    }
    DigitEndAfter(s, 0, d);
    assert s[..|d|] == d;
  }

  /** The end of the longest run of hexadecimal digits, when one is written
      and followed by something else. */
  lemma {:induction false} HexRunAfter(h: string, rest: string)
    requires forall k :: 0 <= k < |h| ==> IsHexDigit(h[k])
    requires rest == [] || !IsHexDigit(rest[0])
    ensures HexRun(h + rest) == |h|
    decreases |h|
  {
    if h == [] {
      assert h + rest == rest;
    } else {
      assert (h + rest)[0] == h[0];
      assert (h + rest)[1..] == h[1..] + rest;
      HexRunAfter(h[1..], rest);
    }
  }

  /** The sign `parseInt` applies to a magnitude. */
  function Signed(sign: string, m: nat): int {
    if sign == "-" then -(m as int) else m
  }

  /** After the white space, `parseInt` takes one optional sign and
      applies it to the magnitude that follows. */
  lemma ParseIntSigned(s: string, sign: string, m: string)
    requires sign == "" || sign == "-" || sign == "+"
    requires TrimStart(s) == sign + m
    requires sign == "" ==> m == [] || (m[0] != '-' && m[0] != '+')
    ensures ParseMagnitude(m).None? ==> ParseInt(s) == None
    ensures ParseMagnitude(m).Some? ==> ParseInt(s) == Some(Signed(sign, ParseMagnitude(m).value))
  {
    var t := TrimStart(s);
    if sign == "" {
      assert t == m;
    } else {
      assert t[0] == sign[0] && t[1..] == m;
    }
  }

  /** `0x` or `0X` and a run of hexadecimal digits followed by something
      else read in base 16; with no digit after the prefix, NaN. */
  lemma HexMagnitude(x: char, h: string, rest: string)
    requires x == 'x' || x == 'X'
    requires forall k :: 0 <= k < |h| ==> IsHexDigit(h[k])
    requires rest == [] || !IsHexDigit(rest[0])
    ensures h == [] ==> ParseMagnitude(['0', x] + h + rest) == None
    ensures h != [] ==> ParseMagnitude(['0', x] + h + rest) == Some(Hex(h))
  {
    var m := ['0', x] + h + rest;
    HexRunAfter(h, rest);
    HexPrefix(m, h + rest);
    if h != [] {
      assert m[2..2 + |h|] == h;
    }
  }

  /** With the `0x` prefix, the magnitude is read from the hexadecimal run
      of what follows it. */
  lemma HexPrefix(m: string, t: string)
    requires |m| >= 2 && m[0] == '0' && (m[1] == 'x' || m[1] == 'X') && m[2..] == t
    ensures HexRun(t) == 0 ==> ParseMagnitude(m) == None
    ensures HexRun(t) != 0 ==> ParseMagnitude(m) == Some(Hex(m[2..2 + HexRun(t)]))
  {
  }

  /** `parseInt` of white space, one optional sign and a magnitude `m`:
      the sign applied to what `m` reads as, or NaN. */
  lemma ParseIntAfter(ws: string, sign: string, m: string)
    requires AllSpace(ws)
    requires sign == "" || sign == "-" || sign == "+"
    requires sign == "" ==> m == [] || (!IsSpace(m[0]) && m[0] != '-' && m[0] != '+')
    ensures ParseMagnitude(m).None? ==> ParseInt(ws + sign + m) == None
    ensures ParseMagnitude(m).Some? ==> ParseInt(ws + sign + m) == Some(Signed(sign, ParseMagnitude(m).value))
  {
    var t := sign + m;
    assert ws + sign + m == ws + t;
    assert t != [] ==> t[0] == if sign == "" then m[0] else sign[0];
    TrimStartAfterSpace(ws, t);
    ParseIntSigned(ws + t, sign, m);
  }

  /** After white space and one optional sign, `parseInt` reads the longest
      run of decimal digits and ignores what follows: `"1/86400"` reads 1,
      `" -12abc"` reads -12. */
  lemma ParseIntDecimal(ws: string, sign: string, d: string, rest: string)
    requires AllSpace(ws)
    requires sign == "" || sign == "-" || sign == "+"
    requires d != [] && AllDigits(d)
    requires rest == [] || !IsDigit(rest[0])
    requires !(d == "0" && rest != [] && (rest[0] == 'x' || rest[0] == 'X'))
    ensures ParseInt(ws + sign + d + rest) == Some(Signed(sign, Decimal(d)))
  {
    assert ws + sign + d + rest == ws + sign + (d + rest);
    assert (d + rest)[0] == d[0];
    DecimalMagnitude(d, rest);
    ParseIntAfter(ws, sign, d + rest);
  }

  /** A `0x` or `0X` prefix switches to base 16; without a hexadecimal
      digit after it the result is NaN. */
  lemma ParseIntHex(ws: string, sign: string, x: char, h: string, rest: string)
    requires AllSpace(ws)
    requires sign == "" || sign == "-" || sign == "+"
    requires x == 'x' || x == 'X'
    requires forall k :: 0 <= k < |h| ==> IsHexDigit(h[k])
    requires rest == [] || !IsHexDigit(rest[0])
    ensures h == [] ==> ParseInt(ws + sign + ['0', x] + h + rest) == None
    ensures h != [] ==> ParseInt(ws + sign + ['0', x] + h + rest) == Some(Signed(sign, Hex(h)))
  {
    var m := ['0', x] + h + rest;
    assert ws + sign + ['0', x] + h + rest == ws + sign + m;
    assert m[0] == '0';
    HexMagnitude(x, h, rest);
    ParseIntAfter(ws, sign, m);
  }

  /** With no digit after the white space and the optional sign, the
      result is NaN. */
  lemma ParseIntNaN(ws: string, sign: string, rest: string)
    requires AllSpace(ws)
    requires sign == "" || sign == "-" || sign == "+"
    requires rest == [] || !IsDigit(rest[0])
    requires sign == "" ==> rest == [] || (!IsSpace(rest[0]) && rest[0] != '-' && rest[0] != '+')
    ensures ParseInt(ws + sign + rest) == None
  {
    assert DigitEnd(rest, 0) == 0;
    ParseIntAfter(ws, sign, rest);
  }

  // ----------------------------------------------------------- lower case

  function LowerChar(c: char): char {
    if 'A' <= c <= 'Z' then (c as int + 32) as char else c
  }

  /** `toLowerCase()` / `lower()` on the ASCII letters. */
  function Lower(s: string): (r: string)
    ensures |r| == |s|
    ensures forall k :: 0 <= k < |s| ==> r[k] == LowerChar(s[k])
  {
    seq(|s|, k requires 0 <= k < |s| => LowerChar(s[k]))
  }
}
