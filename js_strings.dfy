/**
 * The JavaScript string and number built-ins the server relies on, stated
 * over `string` (a sequence of UTF-16 code units is modelled as `seq<char>`):
 * the `\s` character class and `trim`, `split` on a regular expression and on
 * a literal separator, `indexOf`, `replace` with a string pattern,
 * `parseInt(s, 10)` and the decimal rendering of integral numbers.
 */
module JsStrings {
  import opened Wrappers

  /** ECMAScript WhiteSpace and LineTerminator code points: what `\s` matches and `trim` removes. */
  predicate IsSpace(c: char) {
    || c == ' ' || c == '\t' || c == '\n' || c == '\r' || c == '\U{B}' || c == '\U{C}'
    || c == '\U{A0}' || c == '\U{1680}' || ('\U{2000}' <= c <= '\U{200A}')
    || c == '\U{2028}' || c == '\U{2029}' || c == '\U{202F}' || c == '\U{205F}'
    || c == '\U{3000}' || c == '\U{FEFF}'
  }

  /** The characters that `.` in a regular expression does not match. */
  predicate IsLineTerminator(c: char) {
    c == '\n' || c == '\r' || c == '\U{2028}' || c == '\U{2029}'
  }

  predicate IsDigit(c: char) { '0' <= c <= '9' }

  predicate All(s: string, p: char -> bool) { forall i :: 0 <= i < |s| ==> p(s[i]) }

  predicate NoneOf(s: string, p: char -> bool) { forall i :: 0 <= i < |s| ==> !p(s[i]) }

  predicate AllDigits(s: string) { All(s, IsDigit) }

  /** Length of the longest prefix of `s` whose characters satisfy `p`. */
  function LeadingWhile(s: string, p: char -> bool): (n: nat)
    ensures n <= |s| && All(s[..n], p) && (n == |s| || !p(s[n]))
    decreases |s|
  {
    if s == [] || !p(s[0]) then 0
    else
      var n := 1 + LeadingWhile(s[1..], p);
      assert s[..n] == [s[0]] + s[1..][..n - 1];
      n
  }

  /** Length of the longest suffix of `s` whose characters satisfy `p`. */
  function TrailingWhile(s: string, p: char -> bool): (n: nat)
    ensures n <= |s| && All(s[|s| - n..], p) && (n == |s| || !p(s[|s| - n - 1]))
    decreases |s|
  {
    if s == [] || !p(s[|s| - 1]) then 0
    else
      var m := TrailingWhile(s[..|s| - 1], p);
      TrailingStep(s, p, m);
      m + 1
  }

  /** One more satisfying character at the end extends the trailing run by one. */
  lemma TrailingStep(s: string, p: char -> bool, m: nat)
    requires s != [] && p(s[|s| - 1]) && m <= |s| - 1
    requires All(s[..|s| - 1][|s| - 1 - m..], p)
    requires m == |s| - 1 || !p(s[|s| - m - 2])
    ensures All(s[|s| - m - 1..], p) && (m + 1 == |s| || !p(s[|s| - m - 2]))
  {
    assert s[|s| - m - 1..] == s[..|s| - 1][|s| - 1 - m..] + [s[|s| - 1]];
  }

  /** Index of the first character of `s` satisfying `p`, or `|s|`. */
  function FirstWhere(s: string, p: char -> bool): (k: nat)
    ensures k <= |s| && NoneOf(s[..k], p) && (k == |s| || p(s[k]))
  {
    LeadingWhile(s, c => !p(c))
  }

  /** `LeadingWhile` stops at the first character after a run of `p`. */
  lemma {:induction false} LeadingWhileConcat(a: string, b: string, p: char -> bool)
    requires All(a, p) && (b == [] || !p(b[0]))
    ensures LeadingWhile(a + b, p) == |a|
    decreases |a|
  {
    if a == [] {
      assert a + b == b;
    } else {
      assert (a + b)[0] == a[0];
      assert (a + b)[1..] == a[1..] + b;
      LeadingWhileConcat(a[1..], b, p);
    }
  }

  /** `TrailingWhile` stops at the last character before a run of `p`. */
  lemma {:induction false} TrailingWhileConcat(a: string, b: string, p: char -> bool)
    requires All(b, p) && (a == [] || !p(a[|a| - 1]))
    ensures TrailingWhile(a + b, p) == |b|
    decreases |b|
  {
    if b == [] {
      assert a + b == a;
    } else {
      var s := a + b;
      assert s[|s| - 1] == b[|b| - 1];
      assert s[..|s| - 1] == a + b[..|b| - 1];
      TrailingWhileConcat(a, b[..|b| - 1], p);
    }
  }

  /** A trailing run of `p` never reaches past a character outside `p`. */
  lemma {:induction false} TrailingWhileStops(s: string, j: int, p: char -> bool)
    requires 0 <= j < |s| && !p(s[j])
    ensures TrailingWhile(s, p) < |s| - j
    decreases |s|
  {
    if p(s[|s| - 1]) {
      TrailingWhileStops(s[..|s| - 1], j, p);
    }
  }

  lemma FirstWhereConcat(a: string, b: string, p: char -> bool)
    requires NoneOf(a, p) && (b == [] || p(b[0]))
    ensures FirstWhere(a + b, p) == |a|
  {
    LeadingWhileConcat(a, b, c => !p(c));
  }

  /** `String.prototype.trim`. */
  function Trim(s: string): (r: string)
    ensures |r| <= |s|
    ensures r == [] || (!IsSpace(r[0]) && !IsSpace(r[|r| - 1]))
  {
    var t := s[LeadingWhile(s, IsSpace)..];
    t[..|t| - TrailingWhile(t, IsSpace)]
  }

  /** Trimming removes exactly the white space around an unpadded text. */
  lemma TrimPadded(a: string, x: string, b: string)
    requires All(a, IsSpace) && All(b, IsSpace)
    requires x == [] || (!IsSpace(x[0]) && !IsSpace(x[|x| - 1]))
    ensures Trim(a + x + b) == x
  {
    var s := a + x + b;
    if x == [] {
      assert s == a + b;
      assert All(s, IsSpace);
      LeadingWhileConcat(s, [], IsSpace);
      assert s + [] == s;
    } else {
      assert s == a + (x + b);
      LeadingWhileConcat(a, x + b, IsSpace);
      var t := s[|a|..];
      assert t == x + b;
      TrailingWhileConcat(x, b, IsSpace);
      assert t[..|t| - |b|] == x;
    }
  }

  /** `Trim` is idempotent. */
  lemma TrimIdempotent(s: string)
    ensures Trim(Trim(s)) == Trim(s)
  {
    TrimPadded([], Trim(s), []);
    assert [] + Trim(s) + [] == Trim(s);
  }

  /**
   * `s.split(/\s+/)`: the pieces between maximal runs of white space. A
   * leading run gives an empty first piece and a trailing run an empty last
   * piece.
   */
  function SplitWs(s: string): (r: seq<string>)
    ensures |r| >= 1
    ensures forall i :: 0 <= i < |r| ==> NoneOf(r[i], IsSpace)
    decreases |s|
  {
    var k := FirstWhere(s, IsSpace);
    if k == |s| then [s]
    else
      var n := LeadingWhile(s[k..], IsSpace);
      [s[..k]] + SplitWs(s[k + n..])
  }

  /** A piece followed by a run of white space is split off whole. */
  lemma SplitWsCons(a: string, sep: string, v: string)
    requires NoneOf(a, IsSpace) && sep != [] && All(sep, IsSpace)
    requires v == [] || !IsSpace(v[0])
    ensures SplitWs(a + sep + v) == [a] + SplitWs(v)
  {
    var s := a + sep + v;
    assert s == a + (sep + v);
    FirstWhereConcat(a, sep + v, IsSpace);
    assert s[|a|..] == sep + v;
    LeadingWhileConcat(sep, v, IsSpace);
    assert s[|a| + |sep|..] == v;
    assert s[..|a|] == a;
  }

  /** The first piece is the text before the first white space. */
  lemma SplitWsFirst(b: string, rest: string)
    requires NoneOf(b, IsSpace) && (rest == [] || IsSpace(rest[0]))
    ensures SplitWs(b + rest)[0] == b
  {
    FirstWhereConcat(b, rest, IsSpace);
    assert (b + rest)[..|b|] == b;
  }

  /** The first two pieces of `a <spaces> b <rest>` are `a` and `b`. */
  lemma SplitWsFirstTwo(a: string, sep: string, b: string, rest: string)
    requires NoneOf(a, IsSpace) && NoneOf(b, IsSpace) && b != []
    requires sep != [] && All(sep, IsSpace)
    requires rest == [] || IsSpace(rest[0])
    ensures |SplitWs(a + sep + b + rest)| >= 2
    ensures SplitWs(a + sep + b + rest)[0] == a
    ensures SplitWs(a + sep + b + rest)[1] == b
  {
    assert a + sep + b + rest == a + sep + (b + rest);
    SplitWsCons(a, sep, b + rest);
    SplitWsFirst(b, rest);
  }

  predicate OccursAt(s: string, pat: string, i: int) {
    0 <= i && i + |pat| <= |s| && s[i..i + |pat|] == pat
  }

  /** `s.indexOf(pat)`: the first position where `pat` occurs, if any. */
  function IndexOf(s: string, pat: string): (r: Option<nat>)
    ensures r.Some? ==> OccursAt(s, pat, r.value)
    ensures r.Some? ==> forall j :: 0 <= j < r.value ==> !OccursAt(s, pat, j)
    ensures r.None? ==> forall j :: !OccursAt(s, pat, j)
    decreases |s|
  {
    if |s| < |pat| then None
    else if s[..|pat|] == pat then Some(0)
    else
      var tail := IndexOf(s[1..], pat);
      assert forall j :: 1 <= j ==> (OccursAt(s, pat, j) <==> OccursAt(s[1..], pat, j - 1)) by {
        forall j | 1 <= j ensures OccursAt(s, pat, j) <==> OccursAt(s[1..], pat, j - 1) {
          OccursAtShift(s, pat, j);
        }
      }
      match tail
      case None => None
      case Some(i) => Some(i + 1)
  }

  /** An occurrence past the first character is an occurrence in the rest. */
  lemma OccursAtShift(s: string, pat: string, j: int)
    requires s != [] && 1 <= j
    ensures OccursAt(s, pat, j) <==> OccursAt(s[1..], pat, j - 1)
  {
    if j + |pat| <= |s| {
      assert s[j..j + |pat|] == s[1..][j - 1..j - 1 + |pat|];
    }
  }

  predicate Contains(s: string, pat: string) { IndexOf(s, pat).Some? }

  /**
   * `s.replace(pat, () => rep)` with a string pattern: only the first
   * occurrence is replaced, by `rep` exactly as it is. A replacement string
   * with no '$' in it behaves the same way (see `ReplaceString`).
   */
  function ReplaceFirst(s: string, pat: string, rep: string): (r: string)
    ensures IndexOf(s, pat).None? ==> r == s
    ensures IndexOf(s, pat).Some? ==>
      var i := IndexOf(s, pat).value;
      |r| == |s| - |pat| + |rep| && r[..i] == s[..i] && r[i..i + |rep|] == rep && r[i + |rep|..] == s[i + |pat|..]
  {
    match IndexOf(s, pat)
    case None => s
    case Some(i) => s[..i] + rep + s[i + |pat|..]
  }

  /**
   * The substitution `replace` applies to a replacement string when the
   * pattern is a string, so there are no capture groups: `$$` gives '$',
   * `$&` the matched text, `` $` `` the text before the match and `$'` the
   * text after it. Any other '$' is kept as written (`$1` and `$<` name no
   * group).
   */
  function Substitute(rep: string, matched: string, before: string, after: string): (r: string)
    ensures '$' !in rep ==> r == rep
    decreases |rep|
  {
    if rep == [] then []
    else if |rep| >= 2 && rep[0] == '$' && rep[1] == '$' then "$" + Substitute(rep[2..], matched, before, after)
    else if |rep| >= 2 && rep[0] == '$' && rep[1] == '&' then matched + Substitute(rep[2..], matched, before, after)
    else if |rep| >= 2 && rep[0] == '$' && rep[1] == '`' then before + Substitute(rep[2..], matched, before, after)
    else if |rep| >= 2 && rep[0] == '$' && rep[1] == '\'' then after + Substitute(rep[2..], matched, before, after)
    else [rep[0]] + Substitute(rep[1..], matched, before, after)
  }

  /** Every '$' doubled, so that `Substitute` gives the text back. */
  function EscapeDollars(t: string): (r: string)
    ensures '$' !in t ==> r == t
  {
    if t == [] then []
    else if t[0] == '$' then "$$" + EscapeDollars(t[1..])
    else [t[0]] + EscapeDollars(t[1..])
  }

  /** Substituting into an escaped text gives the text back, whatever was matched. */
  lemma {:induction false} SubstituteEscaped(t: string, matched: string, before: string, after: string)
    ensures Substitute(EscapeDollars(t), matched, before, after) == t
  {
    if t != [] {
      SubstituteEscaped(t[1..], matched, before, after);
      var e := EscapeDollars(t[1..]);
      if t[0] == '$' {
        assert EscapeDollars(t) == "$$" + e;
        assert ("$$" + e)[2..] == e;
      } else {
        assert EscapeDollars(t) == [t[0]] + e;
        assert ([t[0]] + e)[1..] == e;
      }
      assert t == [t[0]] + t[1..];
    }
  }

  /**
   * `s.replace(pat, rep)` with a string pattern and a string replacement:
   * the first occurrence is replaced by `rep` after `$` substitution.
   */
  function ReplaceString(s: string, pat: string, rep: string): (r: string)
    ensures IndexOf(s, pat).None? ==> r == s
    ensures '$' !in rep ==> r == ReplaceFirst(s, pat, rep)
  {
    match IndexOf(s, pat)
    case None => s
    case Some(i) => ReplaceFirst(s, pat, Substitute(rep, pat, s[..i], s[i + |pat|..]))
  }

  /** `s.split(sep)` for a non-empty literal separator. */
  function Split(s: string, sep: string): (r: seq<string>)
    requires sep != []
    ensures |r| >= 1
    decreases |s|
  {
    match IndexOf(s, sep)
    case None => [s]
    case Some(i) => [s[..i]] + Split(s[i + |sep|..], sep)
  }

  /** `parts.join(sep)`. */
  function Join(parts: seq<string>, sep: string): string {
    if |parts| == 0 then ""
    else if |parts| == 1 then parts[0]
    else parts[0] + sep + Join(parts[1..], sep)
  }

  /** Joining a first piece before the others puts one separator between them. */
  lemma JoinCons(a: string, rest: seq<string>, sep: string)
    requires rest != []
    ensures Join([a] + rest, sep) == a + sep + Join(rest, sep)
  {
    assert ([a] + rest)[1..] == rest;
  }

  /** Joining around a middle piece: the pieces before it, the piece, the pieces after it. */
  lemma {:induction false} JoinAround(xs: seq<string>, m: string, ys: seq<string>, sep: string)
    requires xs != [] && ys != []
    ensures Join(xs + [m] + ys, sep) == Join(xs, sep) + sep + m + sep + Join(ys, sep)
    decreases |xs|
  {
    var x := xs[0];
    assert xs + [m] + ys == [x] + (xs[1..] + [m] + ys);
    if |xs| == 1 {
      assert xs[1..] + [m] + ys == [m] + ys;
      JoinCons(x, [m] + ys, sep);
      JoinCons(m, ys, sep);
    } else {
      JoinCons(x, xs[1..] + [m] + ys, sep);
      JoinAround(xs[1..], m, ys, sep);
      assert xs == [x] + xs[1..];
      JoinCons(x, xs[1..], sep);
    }
  }

  /** A string is the text before an occurrence, the occurrence, and the text after it. */
  lemma AroundOccurrence(s: string, pat: string, i: int)
    requires OccursAt(s, pat, i)
    ensures s == s[..i] + pat + s[i + |pat|..]
  {
    assert s == s[..i] + s[i..i + |pat|] + s[i + |pat|..];
  }

  /** Joining the pieces of a split with the separator gives back the string. */
  lemma {:induction false} JoinSplit(s: string, sep: string)
    requires sep != []
    ensures Join(Split(s, sep), sep) == s
    decreases |s|
  {
    var found := IndexOf(s, sep);
    if found.Some? {
      var i := found.value;
      var rest := s[i + |sep|..];
      var tail := Split(rest, sep);
      assert Split(s, sep) == [s[..i]] + tail;
      JoinSplit(rest, sep);
      JoinCons(s[..i], tail, sep);
      AroundOccurrence(s, sep, i);
    }
  }

  /** A one-character pattern occurs exactly where that character is. */
  lemma OccursAtChar(s: string, c: char, j: int)
    ensures OccursAt(s, [c], j) <==> 0 <= j < |s| && s[j] == c
  {
    if 0 <= j < |s| {
      assert s[j..j + 1] == [s[j]];
    }
  }

  /** `s.indexOf(c)` finds something exactly when `c` is in `s`. */
  lemma ContainsChar(s: string, c: char)
    ensures Contains(s, [c]) <==> c in s
  {
    if c in s {
      var k :| 0 <= k < |s| && s[k] == c;
      OccursAtChar(s, c, k);
    }
    if Contains(s, [c]) {
      OccursAtChar(s, c, IndexOf(s, [c]).value);
    }
  }

  /** The text before the first occurrence of `pat` does not contain it. */
  lemma BeforeFirstOccurrence(s: string, pat: string, i: nat)
    requires pat != [] && IndexOf(s, pat) == Some(i)
    ensures !Contains(s[..i], pat)
  {
    forall j ensures !OccursAt(s[..i], pat, j) {
      if 0 <= j && j + |pat| <= i {
        assert j < i;
        assert !OccursAt(s, pat, j);
        assert s[..i][j..j + |pat|] == s[j..j + |pat|];
      }
    }
  }

  /** The first piece of a split on a character: a prefix free of it, followed by it or by the end. */
  lemma SplitFirstPiece(s: string, c: char)
    ensures var first := Split(s, [c])[0];
      && |first| <= |s| && s[..|first|] == first
      && c !in first
      && (|first| == |s| || s[|first|] == c)
  {
    var found := IndexOf(s, [c]);
    if found.None? {
      ContainsChar(s, c);
    } else {
      var j := found.value;
      BeforeFirstOccurrence(s, [c], j);
      ContainsChar(s[..j], c);
      OccursAtChar(s, c, j);
    }
  }

  /** No piece of a split contains the separator. */
  lemma {:induction false} SplitPiecesFree(s: string, sep: string)
    requires sep != []
    ensures forall t :: t in Split(s, sep) ==> !Contains(t, sep)
    decreases |s|
  {
    var found := IndexOf(s, sep);
    if found.Some? {
      var i := found.value;
      var rest := s[i + |sep|..];
      assert Split(s, sep) == [s[..i]] + Split(rest, sep);
      SplitPiecesFree(rest, sep);
      BeforeFirstOccurrence(s, sep, i);
    }
  }

  function Repeat(c: char, n: nat): (r: string)
    ensures |r| == n && forall i :: 0 <= i < n ==> r[i] == c
  {
    seq(n, _ => c)
  }

  predicate StartsWith(s: string, p: string) { |p| <= |s| && s[..|p|] == p }

  predicate EndsWith(s: string, p: string) { |p| <= |s| && s[|s| - |p|..] == p }

  // ---------------------------------------------------------------------
  // Numbers

  function DigitChar(d: nat): (c: char)
    requires d < 10
    ensures IsDigit(c)
  {
    (('0' as int) + d) as char
  }

  function DigitValue(c: char): (d: nat)
    requires IsDigit(c)
    ensures d < 10 && DigitChar(d) == c
  {
    (c as int) - ('0' as int)
  }

  /** The decimal digits of `n`, without leading zeros. */
  function NatToString(n: nat): (s: string)
    ensures |s| >= 1 && AllDigits(s)
    ensures n > 0 ==> s[0] != '0'
  {
    if n < 10 then [DigitChar(n)]
    else
      var s := NatToString(n / 10) + [DigitChar(n % 10)];
      assert s[0] == NatToString(n / 10)[0];
      s
  }

  /** `String(n)` for an integral number `n` (of magnitude below 10^21). */
  function IntToString(n: int): (s: string)
    ensures s != [] && (s[0] == '-' || IsDigit(s[0])) && IsDigit(s[|s| - 1])
    ensures n < 0 ==> s[0] == '-' && s[1..] == NatToString(-n)
    ensures n >= 0 ==> s == NatToString(n)
  {
    if n < 0 then "-" + NatToString(-n) else NatToString(n)
  }

  /** The value of a string of decimal digits. */
  function DigitsValue(d: string): nat
    requires AllDigits(d)
  {
    if d == [] then 0 else DigitsValue(d[..|d| - 1]) * 10 + DigitValue(d[|d| - 1])
  }

  lemma {:induction false} DigitsValueOfNatToString(n: nat)
    ensures DigitsValue(NatToString(n)) == n
    decreases n
  {
    if n >= 10 {
      DigitsValueOfNatToString(n / 10);
      var s := NatToString(n);
      assert s[..|s| - 1] == NatToString(n / 10);
    }
  }

  /** What remains of `t` once one leading sign character is dropped. */
  function Unsigned(t: string): string {
    if |t| > 0 && (t[0] == '-' || t[0] == '+') then t[1..] else t
  }

  /**
   * `parseInt(s, 10)`: leading white space is skipped, one sign is read, and
   * the longest run of decimal digits that follows is the value; `None` is
   * `NaN` (no digit there).
   */
  function ParseInt(s: string): (r: Option<int>)
    ensures r.None? <==> LeadingWhile(Unsigned(s[LeadingWhile(s, IsSpace)..]), IsDigit) == 0
  {
    var t := s[LeadingWhile(s, IsSpace)..];
    var u := Unsigned(t);
    var k := LeadingWhile(u, IsDigit);
    if k == 0 then None
    else
      var v: int := DigitsValue(u[..k]);
      if |t| > 0 && t[0] == '-' then Some(-v) else Some(v)
  }

  /** `parseInt` of a text that does not start with white space reads its sign and digits directly. */
  lemma ParseIntUnpadded(s: string, u: string)
    requires s != [] && !IsSpace(s[0]) && u == Unsigned(s)
    ensures var k := LeadingWhile(u, IsDigit);
      ParseInt(s) == if k == 0 then None else if s[0] == '-' then Some(-(DigitsValue(u[..k]) as int)) else Some(DigitsValue(u[..k]) as int)
  {
    assert LeadingWhile(s, IsSpace) == 0;
    assert s[0..] == s;
  }

  /** The digits at the front of a text that continues with a non-digit. */
  lemma LeadingDigits(d: string, tail: string)
    requires AllDigits(d) && (tail == [] || !IsDigit(tail[0]))
    ensures LeadingWhile(d + tail, IsDigit) == |d| && (d + tail)[..|d|] == d
  {
    LeadingWhileConcat(d, tail, IsDigit);
  }

  /** `parseInt` of digits followed by text that does not start with a digit. */
  lemma ParseIntDigits(d: string, tail: string)
    requires d != [] && AllDigits(d) && (tail == [] || !IsDigit(tail[0]))
    ensures ParseInt(d + tail) == Some(DigitsValue(d))
  {
    var s := d + tail;
    assert s[0] == d[0];
    ParseIntUnpadded(s, s);
    LeadingDigits(d, tail);
  }

  /** `parseInt` of a minus sign followed by digits, then text that does not start with a digit. */
  lemma ParseIntMinusDigits(d: string, tail: string, s: string)
    requires d != [] && AllDigits(d) && (tail == [] || !IsDigit(tail[0]))
    requires s != [] && s[0] == '-' && s[1..] == d + tail
    ensures ParseInt(s) == Some(-(DigitsValue(d) as int))
  {
    ParseIntUnpadded(s, d + tail);
    LeadingDigits(d, tail);
  }

  /**
   * `parseInt` reads back what `String` wrote, whatever non-digit text
   * follows it.
   */
  lemma ParseIntOfIntToString(n: int, tail: string)
    requires tail == [] || !IsDigit(tail[0])
    ensures ParseInt(IntToString(n) + tail) == Some(n)
  {
    if n < 0 {
      ParseIntOfNegative(-n, IntToString(n) + tail, tail);
    } else {
      ParseIntOfNatToString(n, tail);
    }
  }

  /** `parseInt` reads back a non-negative number written by `String`. */
  lemma ParseIntOfNatToString(m: nat, tail: string)
    requires tail == [] || !IsDigit(tail[0])
    ensures ParseInt(NatToString(m) + tail) == Some(m)
  {
    DigitsValueOfNatToString(m);
    ParseIntDigits(NatToString(m), tail);
  }

  /** `parseInt` reads back a negative number written by `String`. */
  lemma ParseIntOfNegative(m: nat, s: string, tail: string)
    requires tail == [] || !IsDigit(tail[0])
    requires s != [] && s[0] == '-' && s[1..] == NatToString(m) + tail
    ensures ParseInt(s) == Some(-(m as int))
  {
    var d := NatToString(m);
    ParseIntMinusDigits(d, tail, s);
    DigitsValueOfNatToString(m);
  }

}
